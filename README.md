# Heatmap status matrix

This project models the data transformation in the service-status heatmap of a
monitoring dashboard (`apps/web/src/charts/HeatMap/index.tsx`, lines 27-56). The chart
fetches a list of health samples. Each sample has a `timestamp`, a `flow_name` and a
`status`. From that list the chart builds:

- `uniqueTimestamps`: the x axis, which is the distinct normalised instants
  (`new Date(t).toISOString()`), each once, in order of first appearance;
- `days`: the y axis, which is the distinct flow names, each once, in order of first
  appearance;
- `processedData`: one triple `[timestampIndex, dayIndex, statusValue]` per sample. The
  indices come from `indexOf` on the two axes. The value comes from a `switch`:
  "up" gives 1, "partially up" gives 0.5, "down" gives 0, and anything else gives the
  string "-".

The model has two modules:

- `Sequences` (`sequences.dfy`) models the two JavaScript array operations the
  transformation uses. `Dedup` is `[...new Set(s)]`: a `Set` takes the elements one by
  one, keeps an element only if it is new, and lists the kept elements in insertion
  order. `IndexOf` is `Array.prototype.indexOf`: the first position of an element, or -1.
- `HeatMap` (`heatmap.dfy`) models the sample, the cell and the matrix as datatypes. It
  defines the status table `StatusValueOf` and the transformation `BuildMatrix`, which is
  the body of the chart's effect lifted out as a function. `Incremental` is a second,
  single-pass definition of the same transformation: each sample looks up its instant and
  flow name, and adds either one to its axis when it is new. `BuildMatrixIsIncremental`
  proves the two definitions equal. This shows that an index, once given to a sample,
  never changes.

Timestamp normalisation is a call into the JavaScript runtime. It is the parameter
`normalize: string -> string` of `BuildMatrix`. The same function is used when the time
axis is built (line 29) and when a sample is looked up (line 36). That is all the index
properties need. The cell's third component is the datatype `StatusValue`. It is either
`Num(real)` or `Dash`, where `Dash` is the source's string "-".

## Model

| member | source | states |
|---|---|---|
| `Sequences.IndexOf` | apps/web/src/charts/HeatMap/index.tsx:35-38 | The result is -1 exactly when the element is absent. Otherwise it is a position that holds the element, with no earlier occurrence. |
| `Sequences.Dedup` | apps/web/src/charts/HeatMap/index.tsx:28-32 | The spread `Set` has no duplicates. It holds exactly the elements of the input and is never longer than the input. |
| `Sequences.IndexOfAppend` | apps/web/src/charts/HeatMap/index.tsx:35-38 | Appending to a list does not move the first position of an element already in it. |
| `Sequences.DedupFirstAppearanceOrder` | apps/web/src/charts/HeatMap/index.tsx:28-32 | The spread `Set` lists its elements in order of first appearance in the input. |
| `Sequences.FirstAppearanceOrderUnique` | apps/web/src/charts/HeatMap/index.tsx:28-32 | Two lists with the same elements, both in order of first appearance in the same input, are equal. |
| `Sequences.DedupCharacterisation` | apps/web/src/charts/HeatMap/index.tsx:28-32 | A list equals the spread `Set` of the input if and only if it holds exactly the input's elements in order of first appearance. |
| `HeatMap.StatusValueOf` | apps/web/src/charts/HeatMap/index.tsx:41-53 | The table is total. The value is "-" exactly for a status other than "up", "partially up" and "down". Every numeric value is 0, 0.5 or 1, the values the legend has pieces for (lines 96-100). |
| `HeatMap.StatusValueRanksHealth` | apps/web/src/charts/HeatMap/index.tsx:41-53 | The values rank down below partially up below up. A numeric value determines the status it came from. With `StatusValueOf`'s three values, this fixes down at 0, partially up at 0.5 and up at 1. |
| `HeatMap.BuildMatrix` | apps/web/src/charts/HeatMap/index.tsx:27-56 | There is exactly one triple per sample, in input order. Each index is a real position on its axis (never -1). That position holds the sample's normalised instant or flow name. The value is the status table's value for the sample. |
| `HeatMap.TimeAxisIsFirstAppearanceOrder` | apps/web/src/charts/HeatMap/index.tsx:28-30 | `uniqueTimestamps` has no duplicates and holds exactly the samples' normalised instants, in order of first appearance. |
| `HeatMap.FlowAxisIsFirstAppearanceOrder` | apps/web/src/charts/HeatMap/index.tsx:32 | `days` has no duplicates and holds exactly the samples' flow names, in order of first appearance. |
| `HeatMap.EmptyInputEmptyMatrix` | apps/web/src/charts/HeatMap/index.tsx:28-34 | An empty sample list gives empty axes and no triples. |
| `HeatMap.SameRowIffSameFlow` | apps/web/src/charts/HeatMap/index.tsx:32-38 | Two samples get the same `dayIndex` if and only if they have the same flow name. |
| `HeatMap.SameColumnIffSameInstant` | apps/web/src/charts/HeatMap/index.tsx:28-37 | Two samples get the same `timestampIndex` if and only if their timestamps normalise to the same instant. |
| `HeatMap.CellIndicesInRange` | apps/web/src/charts/HeatMap/index.tsx:34-38 | Every triple's indices lie within the bounds of the two axes. |
| `HeatMap.EveryColumnHasCell` | apps/web/src/charts/HeatMap/index.tsx:28-37 | At least one triple uses each position of the time axis. |
| `HeatMap.EveryRowHasCell` | apps/web/src/charts/HeatMap/index.tsx:32-38 | At least one triple uses each position of the flow axis. |
| `HeatMap.CellsCoverAxes` | apps/web/src/charts/HeatMap/index.tsx:27-56 | The set of column indices used is exactly the set of positions on the time axis. The same holds for row indices and the flow axis. |
| `HeatMap.AxesGrowAtTheEnd` | apps/web/src/charts/HeatMap/index.tsx:28-32 | One more sample adds its instant and its flow name at the end of their axes when they are new. The axes are otherwise unchanged. |
| `HeatMap.EarlierCellUnchanged` | apps/web/src/charts/HeatMap/index.tsx:34-38 | One more sample does not change the triple of any earlier sample. |
| `HeatMap.EarlierCellsUnchanged` | apps/web/src/charts/HeatMap/index.tsx:34-56 | One more sample appends exactly its own triple to `processedData`. |
| `HeatMap.BuildMatrixIsIncremental` | apps/web/src/charts/HeatMap/index.tsx:27-56 | The transformation equals a single pass that gives each sample its indices when it is first seen. Indices are therefore stable. |
| `HeatMap.TwoFlowsOneInstant` | apps/web/src/charts/HeatMap/index.tsx:27-56 | Input: samples "A" up and "B" down with the same timestamp, in any written form. Output: one column holding that timestamp's normalised instant, rows "A" and "B", and triples (0, 0, 1) and (0, 1, 0). |
| `HeatMap.UnknownStatusGivesDash` | apps/web/src/charts/HeatMap/index.tsx:51-52 | A sample with an unrecognised status still gets its triple, with the value "-". |

## Left out

- Fetching the samples (the SWR hook and `fetcher`, lines 8 and 17-20) is network I/O and is not modelled. The model starts from the fetched list.
- The ECharts option object, `setOption`, the click handler that opens the navigation drawer, and the window resize listener (lines 58-141) are rendering and event handling. They compute nothing from the data beyond passing on the three lists.
- The loading and error views (lines 144-151) are markup.
- `new Date(t).toISOString()` is the parameter `normalize`. The model does not capture that it throws a `RangeError` on an unparsable timestamp, which aborts the effect. The code defines no error type of its own. Whether a timestamp parses is not modelled.
- The axis label formatter (`getHours`/`getMinutes`, lines 75-78) reads the local clock zone of the runtime and is not modelled.
- Numbers are Dafny `real`s, not IEEE doubles. The values 0, 0.5 and 1 are exact in both.
- Running the transformation twice on the same input gives the same result. Every member here is a mathematical function, so this holds by construction and has no separate lemma.
- `HeatMap.Sample` models `timestamp`, `flow_name` and `status` as strings. The fetched JSON may hold any value there (a number, `null`, or `undefined` for a missing field). `Set` and `indexOf` treat such values consistently, and a non-string status falls to the `default` arm, giving "-" (lines 51-52). The model does not represent these non-string values.
- The login page (`apps/web/src/Login/index.tsx`) is static markup. The database wrapper (`services/synthetic-metrics/src/db.js`) is a pass-through to the `pg` connection pool, configured from environment variables. Neither is part of this model.
