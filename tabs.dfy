/** Selection of a top-level tab and extraction of its records (fetchData.ts,
    extractNodesByTab and getInfoFromData). Both scan `data.options` with
    `Array.prototype.find`, which reads a property of each entry in turn and so throws
    on a `null` or `undefined` entry met before the first match. */
module Tabs {
  import opened Wrappers
  import opened Schema
  import opened Extract

  /** The two selection keys, never mixed: `opt.tabId === id` and `opt.type === t`. */
  datatype Selector = ByTabId(id: string) | ByType(t: string)

  predicate Selects(sel: Selector, opt: MapOption)
    requires opt.MapOption?
  {
    match sel
    case ByTabId(id) => opt.tabId == Some(id)
    case ByType(t) => opt.optionType == Some(t)
  }

  /** Every entry before index `k` is an object that the selector does not pick. */
  predicate PassedOver(opts: seq<MapOption>, sel: Selector, k: nat)
    requires k <= |opts|
  {
    forall j :: 0 <= j < k ==> opts[j].MapOption? && !Selects(sel, opts[j])
  }

  /** Index `i` holds the first entry the selector picks. */
  predicate FirstMatchAt(opts: seq<MapOption>, sel: Selector, i: nat)
  {
    i < |opts| && PassedOver(opts, sel, i) && opts[i].MapOption? && Selects(sel, opts[i])
  }

  /** Index `i` holds a nullish entry that the scan reaches before any match. */
  predicate NullReachedAt(opts: seq<MapOption>, sel: Selector, i: nat)
  {
    i < |opts| && PassedOver(opts, sel, i) && opts[i].NullTab?
  }

  /** `opts.find(opt => <sel matches opt>)`: the first entry picked, `None` when the scan
      ends without one, an error when it reaches a nullish entry first. */
  function FindFirst(opts: seq<MapOption>, sel: Selector): (r: Result<Option<MapOption>, Error>)
    ensures r == Ok(None) <==> PassedOver(opts, sel, |opts|)
    ensures forall i: nat :: FirstMatchAt(opts, sel, i) ==> r == Ok(Some(opts[i]))
    ensures r.Ok? && r.value.Some? ==> exists i: nat :: FirstMatchAt(opts, sel, i) && r.value.value == opts[i]
    ensures forall i: nat :: NullReachedAt(opts, sel, i) ==> r == Err(TypeError)
    ensures r.Err? ==> r.error == TypeError && exists i: nat :: NullReachedAt(opts, sel, i)
  {
    if |opts| == 0 then Ok(None)
    else if opts[0].NullTab? then
      assert NullReachedAt(opts, sel, 0);
      Err(TypeError)
    else if Selects(sel, opts[0]) then
      assert FirstMatchAt(opts, sel, 0);
      Ok(Some(opts[0]))
    else
      var r := FindFirst(opts[1..], sel);
      assert forall i: nat :: i + 1 <= |opts| && PassedOver(opts[1..], sel, i) ==> PassedOver(opts, sel, i + 1);
      assert forall i: nat :: 0 < i <= |opts| && PassedOver(opts, sel, i) ==> PassedOver(opts[1..], sel, i - 1);
      if r.Ok? && r.value.Some? then
        var i: nat :| FirstMatchAt(opts[1..], sel, i) && r.value.value == opts[1..][i];
        assert FirstMatchAt(opts, sel, i + 1);
        r
      else if r.Err? then
        var i: nat :| NullReachedAt(opts[1..], sel, i);
        assert NullReachedAt(opts, sel, i + 1);
        r
      else
        r
  }

  /** `data.options`, or no entries when it is missing (`?.` then yields undefined). */
  function OptionsOf(data: MapData): seq<MapOption>
  {
    if data.options.Some? then data.options.value else []
  }

  /** The records of the entries of a tab's `options`, each walked with the fallback
      `option.name ?? tab.name`; reading `option.name` throws on a nullish entry. */
  function TabRecords(entries: seq<OptionNode>, tabName: Option<string>): (r: Result<seq<Node>, Error>)
    ensures r.Err? ==> r.error == TypeError
  {
    if |entries| == 0 then Ok([])
    else
      match TabRecords(entries[..|entries| - 1], tabName)
      case Err(e) => Err(e)
      case Ok(nodes) =>
        var option := entries[|entries| - 1];
        if option.Absent? then Err(TypeError)
        else Ok(nodes + Collect(option, Coalesce(option.name, tabName)))
  }

  /** extractNodesByTab(tabId, data), as a function. */
  function ExtractByTab(tabId: string, data: MapData): (r: Result<seq<Node>, Error>)
    ensures r.Err? ==> r.error == TypeError
  {
    match FindFirst(OptionsOf(data), ByTabId(tabId))
    case Err(e) => Err(e)
    case Ok(None) => Ok([])
    case Ok(Some(tab)) =>
      if tab.options.Array? then TabRecords(tab.options.items, tab.name) else Ok([])
  }

  /** Seeding an entry's walk with `option.name ?? tab.name` is the same as walking it as
      the child of a nameless node inheriting the tab's name (or "Unknown"). */
  lemma SeededFallback(option: OptionNode, tabName: Option<string>)
    requires option.Present?
    ensures Collect(option, Coalesce(option.name, tabName)) == Collect(option, Some(ResolveName(None, tabName)))
  {
  }

  /** A tab's entries yield exactly what its entries would yield as the children of a node
      named after the tab, unless one of them is nullish, which throws. */
  lemma {:induction false} TabRecordsSpec(entries: seq<OptionNode>, tabName: Option<string>)
    ensures (exists i :: 0 <= i < |entries| && entries[i].Absent?) ==> TabRecords(entries, tabName) == Err(TypeError)
    ensures (forall i :: 0 <= i < |entries| ==> entries[i].Present?) ==>
              TabRecords(entries, tabName) == Ok(CollectChildren(entries, ResolveName(None, tabName)))
  {
    if |entries| > 0 {
      var init := entries[..|entries| - 1];
      var last := entries[|entries| - 1];
      TabRecordsSpec(init, tabName);
      if last.Present? {
        SeededFallback(last, tabName);
      }
      if exists i :: 0 <= i < |entries| && entries[i].Absent? {
        var i :| 0 <= i < |entries| && entries[i].Absent?;
        if i < |init| {
          assert init[i].Absent?;
        }
      }
    }
  }

  /** extractNodesByTab: `find` the tab, then a forEach loop spreading each entry's walk
      into a local array. */
  method ExtractNodesByTab(tabId: string, data: MapData) returns (r: Result<seq<Node>, Error>)
    ensures r == ExtractByTab(tabId, data)
  {
    var found := FindFirst(OptionsOf(data), ByTabId(tabId));
    if found.Err? {
      return Err(found.error);
    }
    if found.value.None? || !found.value.value.options.Array? {
      return Ok([]);
    }
    var tab := found.value.value;
    var entries := tab.options.items;
    var nodes := [];
    var i := 0;
    while i < |entries|
      invariant 0 <= i <= |entries|
      invariant TabRecords(entries[..i], tab.name) == Ok(nodes)
    {
      var option := entries[i];
      assert entries[..i + 1][..i] == entries[..i];
      if option.Absent? {
        TabRecordsSpec(entries, tab.name);
        return Err(TypeError);
      }
      var optionNodes := CollectNodesFromOption(option, if option.name.Some? then option.name else tab.name);
      nodes := nodes + optionNodes;
      i := i + 1;
    }
    assert entries[..|entries|] == entries;
    r := Ok(nodes);
  }

  /** What extractNodesByTab returns, case by case: nothing when no tab has the id or the
      tab's `options` is not an array; the walk of its entries, in order and with the tab's
      name as fallback, from the first tab with the id; an error when the scan or the walk
      meets a nullish entry. */
  lemma ExtractByTabSpec(tabId: string, data: MapData)
    ensures var opts := OptionsOf(data);
            PassedOver(opts, ByTabId(tabId), |opts|) ==> ExtractByTab(tabId, data) == Ok([])
    ensures var opts := OptionsOf(data);
            forall i: nat :: NullReachedAt(opts, ByTabId(tabId), i) ==> ExtractByTab(tabId, data) == Err(TypeError)
    ensures var opts := OptionsOf(data);
            forall i: nat :: FirstMatchAt(opts, ByTabId(tabId), i) && opts[i].options.NotArray? ==>
              ExtractByTab(tabId, data) == Ok([])
    ensures var opts := OptionsOf(data);
            forall i: nat :: FirstMatchAt(opts, ByTabId(tabId), i) && opts[i].options.Array?
                             && (forall k :: 0 <= k < |opts[i].options.items| ==> opts[i].options.items[k].Present?) ==>
              ExtractByTab(tabId, data) == Ok(CollectChildren(opts[i].options.items, ResolveName(None, opts[i].name)))
    ensures var opts := OptionsOf(data);
            forall i: nat :: FirstMatchAt(opts, ByTabId(tabId), i) && opts[i].options.Array?
                             && (exists k :: 0 <= k < |opts[i].options.items| && opts[i].options.items[k].Absent?) ==>
              ExtractByTab(tabId, data) == Err(TypeError)
  {
    var opts := OptionsOf(data);
    forall i: nat | FirstMatchAt(opts, ByTabId(tabId), i) && opts[i].options.Array?
      ensures ExtractByTab(tabId, data) == TabRecords(opts[i].options.items, opts[i].name)
    {
    }
    forall i: nat | FirstMatchAt(opts, ByTabId(tabId), i) && opts[i].options.Array? {
      TabRecordsSpec(opts[i].options.items, opts[i].name);
    }
  }

  /** getInfoFromData(target, data): the first top-level entry whose `type` is `target`;
      none when `data` is missing, has no `options` or no entry matches; an error when
      the scan meets a nullish entry first. */
  function GetInfoFromData(target: string, data: Option<MapData>): (r: Result<Option<MapOption>, Error>)
    ensures data.None? ==> r == Ok(None)
    ensures data.Some? ==>
              var opts := OptionsOf(data.value);
              && (r == Ok(None) <==> PassedOver(opts, ByType(target), |opts|))
              && (forall i: nat :: FirstMatchAt(opts, ByType(target), i) ==> r == Ok(Some(opts[i])))
              && (r.Err? <==> exists i: nat :: NullReachedAt(opts, ByType(target), i))
              && (r.Err? ==> r.error == TypeError)
  {
    if data.None? then Ok(None)
    else
      var option := FindFirst(OptionsOf(data.value), ByType(target));
      option
  }
}
