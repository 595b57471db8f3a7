/**
 The status-matrix transformation of the heatmap chart: the fetched list of
 health samples becomes the two category axes of the chart (the distinct
 instants and the distinct flow names, each in order of first appearance)
 and one `[timestampIndex, dayIndex, statusValue]` triple per sample.

 Normalising a timestamp (`new Date(t).toISOString()`) is a call into the
 JavaScript runtime; it is the parameter `normalize`, applied to every
 sample both when the time axis is built and when a sample is looked up.
 */
module HeatMap {
  import opened Sequences

  /** One element of the fetched health array. */
  datatype Sample = Sample(timestamp: string, flowName: string, status: string)

  /** The third component of a triple: a number, or the string "-" that
      the chart shows for a status it does not know. */
  datatype StatusValue = Num(value: real) | Dash

  /** `[timestampIndex, dayIndex, statusValue]`. The indices are whatever
      `indexOf` returned, so their type admits -1. */
  datatype Cell = Cell(timestampIndex: int, dayIndex: int, status: StatusValue)

  /** `uniqueTimestamps` (the x axis), `days` (the y axis) and
      `processedData` (the heatmap series). */
  datatype Matrix = Matrix(uniqueTimestamps: seq<string>, days: seq<string>, processedData: seq<Cell>)

  /** The statuses the chart knows a value for. */
  const KnownStatuses: set<string> := {"up", "partially up", "down"}

  /** The `switch` on `item.status`. Every string gets a value; a numeric
      value is one of the three values the chart's legend has a piece for,
      all within the 0..1 range of its visual map. */
  function StatusValueOf(status: string): (v: StatusValue)
    ensures v.Dash? <==> status !in KnownStatuses
    ensures v.Num? ==> v.value in {0.0, 0.5, 1.0}
  {
    match status
    case "up" => Num(1.0)
    case "partially up" => Num(0.5)
    case "down" => Num(0.0)
    case _ => Dash
  }

  /** The value orders the known statuses from worst to best health, and a
      numeric value names its status unambiguously. With the three legend
      values of `StatusValueOf`, this fixes down at 0, partially up at 0.5
      and up at 1, so the legend's pieces (0 "Down", 0.5 "Partially Up",
      1 "Up") read every numeric cell back as the status it came from. */
  lemma StatusValueRanksHealth(a: string, b: string)
    ensures StatusValueOf("down").value < StatusValueOf("partially up").value < StatusValueOf("up").value
    ensures StatusValueOf(a).Num? && StatusValueOf(a) == StatusValueOf(b) ==> a == b
  {
  }

  /** `data.map((item) => new Date(item.timestamp).toISOString())`. */
  function NormalizedTimestamps(data: seq<Sample>, normalize: string -> string): (ts: seq<string>)
    ensures |ts| == |data|
    ensures forall k :: 0 <= k < |data| ==> ts[k] == normalize(data[k].timestamp)
  {
    seq(|data|, k requires 0 <= k < |data| => normalize(data[k].timestamp))
  }

  /** `data.map((item) => item.flow_name)`. */
  function FlowNames(data: seq<Sample>): (names: seq<string>)
    ensures |names| == |data|
    ensures forall k :: 0 <= k < |data| ==> names[k] == data[k].flowName
  {
    seq(|data|, k requires 0 <= k < |data| => data[k].flowName)
  }

  /** The triple `data.map` builds for one sample, given the two axes. */
  function ProcessSample(item: Sample, uniqueTimestamps: seq<string>, days: seq<string>,
                         normalize: string -> string): (c: Cell)
  {
    Cell(IndexOf(uniqueTimestamps, normalize(item.timestamp)),
         IndexOf(days, item.flowName),
         StatusValueOf(item.status))
  }

  /** The cell `c` places `item` on the axes of `m`: both indices are real
      positions (never -1) holding that sample's instant and flow name, and
      the value is the one the status table gives. */
  ghost predicate PlacesSample(m: Matrix, item: Sample, normalize: string -> string, c: Cell) {
    && 0 <= c.timestampIndex < |m.uniqueTimestamps|
    && m.uniqueTimestamps[c.timestampIndex] == normalize(item.timestamp)
    && 0 <= c.dayIndex < |m.days|
    && m.days[c.dayIndex] == item.flowName
    && c.status == StatusValueOf(item.status)
  }

  /** Lines 27-56 of the chart's effect, lifted out as a function: one
      triple per sample, in input order, placing that sample on the axes. */
  function BuildMatrix(data: seq<Sample>, normalize: string -> string): (m: Matrix)
    ensures |m.processedData| == |data|
    ensures forall k {:trigger m.processedData[k]} :: 0 <= k < |data| ==> PlacesSample(m, data[k], normalize, m.processedData[k])
  {
    var uniqueTimestamps := Dedup(NormalizedTimestamps(data, normalize));
    var days := Dedup(FlowNames(data));
    Matrix(uniqueTimestamps, days,
           seq(|data|, k requires 0 <= k < |data| => ProcessSample(data[k], uniqueTimestamps, days, normalize)))
  }

  /** The time axis lists each instant once, holds exactly the samples'
      normalised instants, and lists them in order of first appearance. */
  lemma TimeAxisIsFirstAppearanceOrder(data: seq<Sample>, normalize: string -> string)
    ensures var axis := BuildMatrix(data, normalize).uniqueTimestamps;
            && Distinct(axis)
            && (forall t :: t in axis <==> t in NormalizedTimestamps(data, normalize))
            && InFirstAppearanceOrder(NormalizedTimestamps(data, normalize), axis)
  {
    DedupFirstAppearanceOrder(NormalizedTimestamps(data, normalize));
  }

  /** The flow axis lists each flow name once, holds exactly the samples'
      flow names, and lists them in order of first appearance. */
  lemma FlowAxisIsFirstAppearanceOrder(data: seq<Sample>, normalize: string -> string)
    ensures var axis := BuildMatrix(data, normalize).days;
            && Distinct(axis)
            && (forall f :: f in axis <==> f in FlowNames(data))
            && InFirstAppearanceOrder(FlowNames(data), axis)
  {
    DedupFirstAppearanceOrder(FlowNames(data));
  }

  /** An empty sample list gives empty axes and no cells. */
  lemma EmptyInputEmptyMatrix(normalize: string -> string)
    ensures BuildMatrix([], normalize) == Matrix([], [], [])
  {
  }

  /** Two samples share a row exactly when they have the same flow name. */
  lemma SameRowIffSameFlow(data: seq<Sample>, normalize: string -> string, i: nat, j: nat)
    requires i < |data| && j < |data|
    ensures var cells := BuildMatrix(data, normalize).processedData;
            cells[i].dayIndex == cells[j].dayIndex <==> data[i].flowName == data[j].flowName
  {
  }

  /** Two samples share a column exactly when their timestamps normalise to
      the same instant. */
  lemma SameColumnIffSameInstant(data: seq<Sample>, normalize: string -> string, i: nat, j: nat)
    requires i < |data| && j < |data|
    ensures var cells := BuildMatrix(data, normalize).processedData;
            (cells[i].timestampIndex == cells[j].timestampIndex)
              <==> (normalize(data[i].timestamp) == normalize(data[j].timestamp))
  {
  }

  /** The column indices the cells use. */
  function ColumnsUsed(cells: seq<Cell>): (columns: set<int>) {
    set c | c in cells :: c.timestampIndex
  }

  /** The row indices the cells use. */
  function RowsUsed(cells: seq<Cell>): (rows: set<int>) {
    set c | c in cells :: c.dayIndex
  }

  /** Every cell's indices are positions of the axes (`indexOf` never
      returned -1). */
  lemma CellIndicesInRange(data: seq<Sample>, normalize: string -> string)
    ensures var m := BuildMatrix(data, normalize);
            forall c :: c in m.processedData ==>
              0 <= c.timestampIndex < |m.uniqueTimestamps| && 0 <= c.dayIndex < |m.days|
  {
    var m := BuildMatrix(data, normalize);
    forall c | c in m.processedData
      ensures 0 <= c.timestampIndex < |m.uniqueTimestamps| && 0 <= c.dayIndex < |m.days|
    {
      var k :| 0 <= k < |data| && m.processedData[k] == c;
      assert PlacesSample(m, data[k], normalize, c);
    }
  }

  /** Every instant of the time axis is the instant of some sample, whose
      cell therefore sits in that column. */
  lemma EveryColumnHasCell(data: seq<Sample>, normalize: string -> string)
    ensures var m := BuildMatrix(data, normalize);
            forall i :: 0 <= i < |m.uniqueTimestamps| ==> i in ColumnsUsed(m.processedData)
  {
    var m := BuildMatrix(data, normalize);
    var instants := NormalizedTimestamps(data, normalize);
    forall i | 0 <= i < |m.uniqueTimestamps|
      ensures i in ColumnsUsed(m.processedData)
    {
      assert m.uniqueTimestamps[i] in instants;
      var k :| 0 <= k < |data| && instants[k] == m.uniqueTimestamps[i];
      assert PlacesSample(m, data[k], normalize, m.processedData[k]);
      assert m.processedData[k] in m.processedData;
    }
  }

  /** Every flow name of the flow axis is the flow name of some sample,
      whose cell therefore sits in that row. */
  lemma EveryRowHasCell(data: seq<Sample>, normalize: string -> string)
    ensures var m := BuildMatrix(data, normalize);
            forall i :: 0 <= i < |m.days| ==> i in RowsUsed(m.processedData)
  {
    var m := BuildMatrix(data, normalize);
    var names := FlowNames(data);
    forall i | 0 <= i < |m.days|
      ensures i in RowsUsed(m.processedData)
    {
      assert m.days[i] in names;
      var k :| 0 <= k < |data| && names[k] == m.days[i];
      assert PlacesSample(m, data[k], normalize, m.processedData[k]);
      assert m.processedData[k] in m.processedData;
    }
  }

  /** The column indices of the cells are exactly the positions of the
      time axis, and their row indices exactly the positions of the flow
      axis: no index is out of range and no label is left without a cell. */
  lemma CellsCoverAxes(data: seq<Sample>, normalize: string -> string)
    ensures var m := BuildMatrix(data, normalize);
            && (forall i :: i in ColumnsUsed(m.processedData) <==> 0 <= i < |m.uniqueTimestamps|)
            && (forall i :: i in RowsUsed(m.processedData) <==> 0 <= i < |m.days|)
  {
    CellIndicesInRange(data, normalize);
    EveryColumnHasCell(data, normalize);
    EveryRowHasCell(data, normalize);
  }

  /** The same transformation done in a single pass: each sample looks up
      its instant and its flow name, appending either to its axis when it is
      new, and its cell is computed against the axes as they stand then. */
  function Incremental(data: seq<Sample>, normalize: string -> string): (m: Matrix)
  {
    if data == [] then Matrix([], [], [])
    else
      var prev := Incremental(data[..|data| - 1], normalize);
      var item := data[|data| - 1];
      var t := normalize(item.timestamp);
      var ts := if t in prev.uniqueTimestamps then prev.uniqueTimestamps else prev.uniqueTimestamps + [t];
      var ds := if item.flowName in prev.days then prev.days else prev.days + [item.flowName];
      Matrix(ts, ds, prev.processedData + [ProcessSample(item, ts, ds, normalize)])
  }

  /** Indices are stable: building both axes first and then looking every
      sample up gives exactly what the single pass gives, where a sample's
      indices are fixed the moment it is seen. */
  lemma {:induction false} BuildMatrixIsIncremental(data: seq<Sample>, normalize: string -> string)
    ensures Incremental(data, normalize) == BuildMatrix(data, normalize)
  {
    if data != [] {
      var init, item := data[..|data| - 1], data[|data| - 1];
      assert data == init + [item];
      BuildMatrixIsIncremental(init, normalize);
      AxesGrowAtTheEnd(init, item, normalize);
      EarlierCellsUnchanged(init, item, normalize);
    }
  }

  /** A further sample adds its instant and its flow name at the end of
      their axes, when they are new, and changes nothing else on them. */
  lemma AxesGrowAtTheEnd(init: seq<Sample>, item: Sample, normalize: string -> string)
    ensures var prev, m := BuildMatrix(init, normalize), BuildMatrix(init + [item], normalize);
            var t := normalize(item.timestamp);
            && m.uniqueTimestamps == (if t in prev.uniqueTimestamps then prev.uniqueTimestamps else prev.uniqueTimestamps + [t])
            && m.days == (if item.flowName in prev.days then prev.days else prev.days + [item.flowName])
  {
    var t := normalize(item.timestamp);
    assert NormalizedTimestamps(init + [item], normalize) == NormalizedTimestamps(init, normalize) + [t];
    assert FlowNames(init + [item]) == FlowNames(init) + [item.flowName];
    DedupSnoc(NormalizedTimestamps(init, normalize), t);
    DedupSnoc(FlowNames(init), item.flowName);
  }

  /** A further sample leaves the cell of an earlier sample as it was:
      that sample's instant and flow name keep their first positions. */
  lemma EarlierCellUnchanged(init: seq<Sample>, item: Sample, normalize: string -> string, k: nat)
    requires k < |init|
    ensures BuildMatrix(init + [item], normalize).processedData[k] == BuildMatrix(init, normalize).processedData[k]
  {
    var prev := BuildMatrix(init, normalize);
    AxesGrowAtTheEnd(init, item, normalize);
    assert (init + [item])[k] == init[k];
    assert PlacesSample(prev, init[k], normalize, prev.processedData[k]);
    IndexOfAppend(prev.uniqueTimestamps, [normalize(item.timestamp)], normalize(init[k].timestamp));
    IndexOfAppend(prev.days, [item.flowName], init[k].flowName);
  }

  /** A further sample leaves the cells of the earlier samples as they
      were and appends its own. */
  lemma EarlierCellsUnchanged(init: seq<Sample>, item: Sample, normalize: string -> string)
    ensures var prev, m := BuildMatrix(init, normalize), BuildMatrix(init + [item], normalize);
            m.processedData == prev.processedData + [ProcessSample(item, m.uniqueTimestamps, m.days, normalize)]
  {
    var data := init + [item];
    var prev, m := BuildMatrix(init, normalize), BuildMatrix(data, normalize);
    var cell := ProcessSample(item, m.uniqueTimestamps, m.days, normalize);
    var expected := prev.processedData + [cell];
    assert |m.processedData| == |expected|;
    forall k | 0 <= k < |data|
      ensures m.processedData[k] == expected[k]
    {
      if k < |init| {
        EarlierCellUnchanged(init, item, normalize, k);
      } else {
        assert data[k] == item;
      }
    }
  }

  /** The sample list `[{t, "A", "up"}, {t, "B", "down"}]` with a single
      timestamp `t`, in whatever form it was written, gives one column (its
      normalised instant), the rows "A" and "B", and the cells (0, 0, 1) and
      (0, 1, 0). */
  lemma TwoFlowsOneInstant(normalize: string -> string, t: string)
    ensures BuildMatrix([Sample(t, "A", "up"), Sample(t, "B", "down")], normalize)
            == Matrix([normalize(t)], ["A", "B"], [Cell(0, 0, Num(1.0)), Cell(0, 1, Num(0.0))])
  {
    var data := [Sample(t, "A", "up"), Sample(t, "B", "down")];
    var n := normalize(t);
    assert NormalizedTimestamps(data, normalize) == [n, n];
    assert NormalizedTimestamps(data, normalize)[..1] == [n];
    assert FlowNames(data) == ["A", "B"];
    assert FlowNames(data)[..1] == ["A"];
  }

  /** A status outside the table does not stop the transformation: the
      sample still gets its cell, holding "-". */
  lemma UnknownStatusGivesDash(data: seq<Sample>, normalize: string -> string, k: nat)
    requires k < |data| && data[k].status !in KnownStatuses
    ensures BuildMatrix(data, normalize).processedData[k].status == Dash
  {
  }
}
