/** Assembly of the final output (fetchData.ts, ParseData): the metadata with its
    fallbacks and one record list per category tab. */
module Pipeline {
  import opened Wrappers
  import opened Schema
  import opened Tabs

  const ResourcesId: string := "resource_nodes"
  const CollectiblesId: string := "collectibles"
  const ArtifactsId: string := "artifacts"
  const WellsId: string := "resource_wells"

  /** No nullish entry in `data.options`, nor in the `options` array of any of them:
      the document shape under which nothing in the extraction throws. */
  predicate NoNullishEntries(data: MapData)
  {
    var opts := OptionsOf(data);
    forall i :: 0 <= i < |opts| ==>
      opts[i].MapOption?
      && (opts[i].options.Array? ==>
            forall k :: 0 <= k < |opts[i].options.items| ==> opts[i].options.items[k].Present?)
  }

  /** With no nullish entries, extracting any tab succeeds. */
  lemma ExtractByTabSucceeds(tabId: string, data: MapData)
    requires NoNullishEntries(data)
    ensures ExtractByTab(tabId, data).Ok?
  {
    var opts := OptionsOf(data);
    var found := FindFirst(opts, ByTabId(tabId));
    if found.Ok? && found.value.Some? {
      var i: nat :| FirstMatchAt(opts, ByTabId(tabId), i) && found.value.value == opts[i];
      if opts[i].options.Array? {
        TabRecordsSpec(opts[i].options.items, opts[i].name);
      }
    }
  }

  /** ParseData: throws when `data` is missing; otherwise `version || -1`,
      `lastBuild || 'unknown'` and the four category lists, each extracted by its tab id.
      An exception from any of the four extractions propagates. */
  method ParseData(data: Option<MapData>) returns (r: Result<FinalData, Error>)
    ensures data.None? <==> r == Err(NoDataProvided)
    ensures data.Some? ==>
              var d := data.value;
              r.Ok? <==> (ExtractByTab(ResourcesId, d).Ok? && ExtractByTab(CollectiblesId, d).Ok?
                          && ExtractByTab(ArtifactsId, d).Ok? && ExtractByTab(WellsId, d).Ok?)
    ensures data.Some? && NoNullishEntries(data.value) ==> r.Ok?
    ensures data.Some? && r.Err? ==> r.error == TypeError
    ensures r.Ok? ==>
              var d := data.value;
              && r.value.version == (if d.version.Some? && d.version.value != 0 then d.version.value else -1)
              && r.value.lastBuild == (if d.lastBuild.Some? && d.lastBuild.value != "" then d.lastBuild.value else "unknown")
              && r.value.resources == ExtractByTab(ResourcesId, d).value
              && r.value.collectibles == ExtractByTab(CollectiblesId, d).value
              && r.value.artifacts == ExtractByTab(ArtifactsId, d).value
              && r.value.wells == ExtractByTab(WellsId, d).value
  {
    if data.None? {
      return Err(NoDataProvided);
    }
    var d := data.value;
    if NoNullishEntries(d) {
      ExtractByTabSucceeds(ResourcesId, d);
      ExtractByTabSucceeds(CollectiblesId, d);
      ExtractByTabSucceeds(ArtifactsId, d);
      ExtractByTabSucceeds(WellsId, d);
    }
    var finalData := FinalData(
      if d.version.Some? && d.version.value != 0 then d.version.value else -1,
      if d.lastBuild.Some? && d.lastBuild.value != "" then d.lastBuild.value else "unknown",
      [], [], [], []);

    var resources := ExtractNodesByTab(ResourcesId, d);
    if resources.Err? { return Err(resources.error); }
    finalData := finalData.(resources := resources.value);

    var collectibles := ExtractNodesByTab(CollectiblesId, d);
    if collectibles.Err? { return Err(collectibles.error); }
    finalData := finalData.(collectibles := collectibles.value);

    var artifacts := ExtractNodesByTab(ArtifactsId, d);
    if artifacts.Err? { return Err(artifacts.error); }
    finalData := finalData.(artifacts := artifacts.value);

    var wells := ExtractNodesByTab(WellsId, d);
    if wells.Err? { return Err(wells.error); }
    finalData := finalData.(wells := wells.value);

    r := Ok(finalData);
  }
}
