# Map-data extraction, modelled in Dafny

This project models the extraction pipeline of `fetchData.ts`. The map viewer's upstream
data is a JSON document whose top-level `options` are tabs. Each tab holds a nested tree of
option nodes carrying `markers`. The pipeline flattens one tab at a time into a list of
point-of-interest records (`Node`: a name, an optional purity rank and an x/y/z location),
for four category tabs: `resource_nodes`, `collectibles`, `artifacts` and `resource_wells`.

Modules:
- `Wrappers`: `Option` (a `null`/`undefined` value is `None`), `Result` (a thrown exception is `Err`) and `??`.
- `Schema`: the document and record shapes. Every field the code tests for presence or type
  is explicit: `Coord = Num | NonNum`, `Children = Array(items) | NotArray`,
  `OptionNode = Absent | Present(...)`, `MapOption = NullTab | MapOption(...)`.
- `Purity`: `PURITY_MAP` and `normalizePurity`.
- `Extract`: `collectNodesFromOption`. `Collect` is a recursive specification. The method
  `CollectNodesFromOption` has the source's two loops and is proved equal to it.
- `ExtractFacts`: what the walk promises about count, order, locations, names and purity. These
  are stated against `AllMarkers`, the pre-order list of every marker of a subtree, and
  `NumericLocations`, the coordinates of the markers whose x, y and z are numbers.
- `Tabs`: `Array.prototype.find` over the tabs (`FindFirst`), `extractNodesByTab` (the pure
  `ExtractByTab` and the method `ExtractNodesByTab`), and `getInfoFromData`.
- `Pipeline`: `ParseData`.
- `Scenarios`: concrete documents and what the pipeline makes of them.

Behaviours of the code worth knowing:
- Purity is not inherited. A record's purity comes from its own marker or from the node that
  holds the marker, never from an ancestor. So in the "Iron" example the child's record has no
  purity (`Scenarios.IronScenario`).
- The code throws a `TypeError` in two places.
  `find` reads `opt.tabId` (or `opt.type`) of every tab entry up to the first match, so a `null`
  entry before the match throws. `extractNodesByTab` reads `option.name` of every entry of the
  matched tab, so a `null` entry there throws too. `ParseData` passes these errors on. In the
  model these are `Err(TypeError)`. A `null` child deeper in the tree is skipped, not an error.
- `??` keeps an empty name, so a record can be named `""`. An empty marker purity also counts as
  present: it hides the node's purity and yields no purity field.
- `ParseData` uses `||`, so a `version` of 0 and a `lastBuild` of `""` are replaced by -1 and
  `"unknown"`, just as missing values are.

## Model

| member | source | states |
|---|---|---|
| Purity.NormalizePurity | fetchData.ts:66-76 | rank 1, 2 or 3 exactly when the input is `impure`, `normal` or `pure` in any mixture of letter cases; absent exactly when the input is missing or is none of them (the empty string included); it never fails |
| Purity.ToLower | fetchData.ts:74 | lowercasing keeps the length, leaves no upper-case letter, turns each upper-case letter into its lower-case partner and leaves every other character unchanged |
| Purity.ToLowerIsKey | fetchData.ts:74-75 | the lowercased input equals a lower-case key exactly when the input is a case variant of that key |
| Extract.ResolveName | fetchData.ts:82 | the effective name is the node's own name if present (even `""`), else the inherited name if present, else `"Unknown"` |
| Extract.OwnRecords | fetchData.ts:84-103 | the records a node pushes for its own `markers` array, in array order; described by `ExtractFacts.OwnRecordsPerMarker` (one record per numeric marker, with the marker's purity before the node's) and `ExtractFacts.OwnRecordsDropNonNumeric` |
| Extract.Collect | fetchData.ts:78-112 | the recursive walk: nothing for an absent option, else the node's own records followed by each child's walk with the effective name as fallback; described by `ExtractFacts.CollectLocations`, `CollectCount`, `CollectPerMarker`, `CollectUnnamed` and `CollectPurityRange` |
| Extract.CollectNodesFromOption | fetchData.ts:78-112 | the loops return exactly the recursive walk: nothing for an absent option; otherwise one record per numeric marker in array order, then each child's output in child order, with the effective name passed down |
| ExtractFacts.CollectLocations | fetchData.ts:84-110 | the records' locations are, in order, the x, y, z of every marker of the subtree whose three coordinates are numbers, unchanged, in pre-order (own markers before children's, children left to right) |
| ExtractFacts.ChildrenLocations | fetchData.ts:105-109 | the same for the concatenated walks of a list of children |
| ExtractFacts.CollectCount | fetchData.ts:79-108 | the number of records equals the number of numeric markers in the whole subtree; an absent option yields the empty list |
| ExtractFacts.OwnRecordsDropNonNumeric | fetchData.ts:85-102 | a node's marker with a non-numeric coordinate yields no record, and the whole records of the markers before and after it are kept |
| ExtractFacts.DropsNonNumericMarker | fetchData.ts:85-90 | a marker with a non-numeric coordinate contributes nothing, and the markers before and after it are still emitted |
| ExtractFacts.CollectUnnamed | fetchData.ts:82-107 | in a subtree where no node has a name, every record carries the inherited name, or `"Unknown"` without one |
| ExtractFacts.NamedIgnoresFallback | fetchData.ts:82 | a node's own name overrides whatever name it inherits, for its records and its whole subtree |
| ExtractFacts.OwnRecordsPerMarker | fetchData.ts:85-100 | a node's own markers give one record per numeric marker, in order, each with the effective name, `normalizePurity` of the marker's purity when it has one and of the node's purity otherwise, and the marker's coordinates |
| ExtractFacts.CollectPerMarker | fetchData.ts:82-100 | the walk of a node begins with exactly those per-marker records, so inside one node a marker with a purity ignores the node's purity and a marker without one takes it |
| ExtractFacts.NodePurityShadowed | fetchData.ts:91 | marker purity takes precedence: when every marker of a node has a purity, the node's purity has no effect on the output |
| ExtractFacts.CollectPurityRange | fetchData.ts:91-94 | every record either has no purity field or a rank from 1 to 3 |
| Tabs.FindFirst | fetchData.ts:115 | `find` returns the entry at the first index the selector picks, nothing when every entry is an object it does not pick, and an error exactly when it reaches a nullish entry before any match |
| Tabs.TabRecords | fetchData.ts:118-121 | the loop over a tab's `options`: each entry's walk seeded with `option.name ?? tab.name`, concatenated in order, and a `TypeError` (the only error it returns) at a nullish entry; described by `Tabs.TabRecordsSpec` |
| Tabs.TabRecordsSpec | fetchData.ts:118-121 | a tab's entries yield the concatenated walks of its entries with the tab's name (or `"Unknown"`) as inherited name, or an error when some entry is nullish |
| Tabs.SeededFallback | fetchData.ts:120 | seeding an entry's walk with `option.name ?? tab.name` equals walking it under a nameless parent that inherits the tab's name |
| Tabs.ExtractByTab | fetchData.ts:114-124 | the only error the tab router can raise is the `TypeError` from a nullish entry |
| Tabs.ExtractNodesByTab | fetchData.ts:114-124 | the loop over the matched tab's entries returns exactly `ExtractByTab`, stopping at the first nullish entry |
| Tabs.ExtractByTabSpec | fetchData.ts:114-124 | empty when no tab has the id or the first such tab's `options` is not an array; the walk of that first tab's entries when all are objects; an error when the scan or the walk reaches a nullish entry |
| Tabs.GetInfoFromData | fetchData.ts:167-173 | null when `data` is missing, has no `options` or no entry has the `type`; otherwise the first entry with that `type`; an error exactly when the scan reaches a nullish entry first |
| Pipeline.ExtractByTabSucceeds | fetchData.ts:114-124 | with no nullish entry among the tabs or in any tab's `options`, extracting any tab id succeeds |
| Pipeline.ParseData | fetchData.ts:175-196 | fails with its own error exactly when `data` is missing. Otherwise: `version` is the version, or -1 when it is missing or 0; `lastBuild` is the build, or `"unknown"` when it is missing or empty; the four lists are the extractions of tabs `resource_nodes`, `collectibles`, `artifacts` and `resource_wells`. It succeeds exactly when all four extractions do, which is always the case without nullish entries |
| Scenarios.IronScenario | fetchData.ts:78-124 | a pure "Iron" node with one marker and an unnamed child with one marker yields two "Iron" records; only the first has purity 3 |
| Scenarios.NameInheritanceScenario | fetchData.ts:82-107 | under "Bauxite", an unnamed child's record is "Bauxite"; a "Copper" child and its unnamed child give "Copper" records |
| Scenarios.NonNumericMarkerScenario | fetchData.ts:84-102 | a marker with a non-numeric `z` is dropped between two kept siblings |
| Scenarios.PurityScenarios | fetchData.ts:66-76 | `pUrE` gives 3, `IMPURE` gives 1; `radioactive` and `""` give no purity |
| Scenarios.EmptyStringScenario | fetchData.ts:82-94 | an empty node name is kept over the inherited one; an empty marker purity hides the node's `pure` and gives no purity field |
| Scenarios.TabScenarios | fetchData.ts:115-120 | a tab id that is not present gives no records; a nullish entry in the matched tab raises a `TypeError` |

## Left out

- `GetData` (fetchData.ts:126-165): the HTTPS request, gathering the response chunks and `JSON.parse`. This is network I/O and a library parser. The model starts from the parsed document.
- `main` (fetchData.ts:199-240): creating the directory, writing the five JSON files, logging and `process.exit`. This is file-system plumbing.
- sync-tiles.js, server.js and fetchTiles.js: Drive synchronisation, HTTP serving and parallel tile downloads. These are I/O wrappers with no extraction logic.
- Numbers: coordinates and `version` are integers. Fractional values, `NaN` (which passes the `typeof` test and is falsy for `||`) and `-0` are not modelled.
- Values of another type than the code expects are not representable: a numeric `purity` (on which `toLowerCase` throws), a non-string `name`, `tabId` or `type`, a `version` that is not a number, or a `lastBuild` that is not a string (`||` would keep any truthy value of either).
- Purity.ToLower: lowercases ASCII letters only. No other character lowercases to a single letter of `impure`, `normal` or `pure`, so the purity lookup is unaffected.
- Purity.NormalizePurity: lookups of inherited object keys such as `"constructor"` in `PURITY_MAP` are not modelled. The table has exactly its three keys.
- A `data.options` that is present but not an array (`.find` is then not a function and throws) is not representable. `options` is either an array of entries or missing.
- Tabs.GetInfoFromData: returns an equal value, not the same object. Object identity is not modelled.
- JavaScript engine limits: spreading a very large child result into `push` (fetchData.ts:107, 120) throws a `RangeError`, and very deep nesting overflows the call stack. The model returns a result for inputs of any size and depth.
- Fields of the document that the code never reads (`layerId`, `button`, marker fields other than x, y, z and purity) are left out.
