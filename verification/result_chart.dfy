/**
 * The chart card of one simulation result (src/components/Simulator/ResultChart.tsx):
 * the stock badge, the series it plots, and which x-axis labels it draws.
 * Plot coordinates are left out; a point is identified by its index in the series.
 */
module ResultChart {
  import opened Wrappers
  import opened Seqs
  import opened Types
  import Simulator

  /** `allData`: the history followed by the predictions. */
  function AllData(result: SimulationResult): (data: seq<MonthSales>)
    ensures |data| == |result.historical| + |result.predictions|
    ensures forall i :: 0 <= i < |result.historical| ==> data[i] == result.historical[i]
    ensures forall i :: 0 <= i < |result.predictions| ==>
      data[|result.historical| + i] == result.predictions[i]
  {
    result.historical + result.predictions
  }

  /**
   * `Math.max(...allData.map(d => d.sales))`: the largest figure of the series;
   * `None` stands for the `-Infinity` that an empty series gives.
   */
  function MaxSales(data: seq<MonthSales>): (m: Option<int>)
    ensures m.None? <==> |data| == 0
    ensures m.Some? ==> exists i :: 0 <= i < |data| && data[i].sales == m.value
    ensures m.Some? ==> forall i :: 0 <= i < |data| ==> data[i].sales <= m.value
  {
    if |data| == 0 then None
    else
      var rest := MaxSales(data[1..]);
      if rest.None? || data[0].sales >= rest.value then
        Some(data[0].sales)
      else
        ghost var k :| 0 <= k < |data[1..]| && data[1..][k].sales == rest.value;
        assert data[k + 1].sales == rest.value;
        rest
  }

  /** `totalPredictedSales`. */
  function TotalPredictedSales(result: SimulationResult): int {
    TotalSales(result.predictions)
  }

  /** `stockShortfall`: what is left of the stock after the predicted sales (negative when short). */
  function StockShortfall(result: SimulationResult): int {
    result.stock - TotalPredictedSales(result)
  }

  /** The badge is styled "sufficient" when nothing is missing. */
  predicate BadgeSufficient(result: SimulationResult) {
    StockShortfall(result) >= 0
  }

  /**
   * The "Faltante" amount, `Math.abs(stockShortfall)`, shown only when the
   * stock falls short: then it is the predicted total minus the stock.
   */
  function MissingAmount(result: SimulationResult): (missing: Option<int>)
    ensures missing.Some? <==> result.stock < TotalPredictedSales(result)
    ensures missing.Some? ==> missing.value == TotalPredictedSales(result) - result.stock > 0
  {
    var s := StockShortfall(result);
    // `Math.abs(stockShortfall)`, shown only when the shortfall is negative
    if s < 0 then Some(-s) else None
  }

  /**
   * The card agrees with the verdict the simulator stored: the badge says
   * "sufficient" exactly when `stockSufficient` holds, and the missing amount
   * shown is the result's `shortfall`.
   */
  lemma ChartAgreesWithSimulator(result: SimulationResult)
    requires Simulator.StockVerdictHolds(result)
    ensures BadgeSufficient(result) <==> result.stockSufficient
    ensures MissingAmount(result) == result.shortfall
  {
  }

  /** An x-axis label is drawn at even indices and at the last one. */
  predicate ShowsLabel(i: nat, n: nat) {
    i % 2 == 0 || i == n - 1
  }

  function LabelAt(n: nat): nat -> bool {
    (i: nat) => ShowsLabel(i, n)
  }

  function IsEven(): nat -> bool {
    (i: nat) => i % 2 == 0
  }

  /** The indices `0 .. n-1`. */
  function Indices(n: nat): (r: seq<nat>)
    ensures |r| == n && forall i :: 0 <= i < n ==> r[i] == i
  {
    if n == 0 then [] else Indices(n - 1) + [n - 1]
  }

  /** The indices of a series of `n` points that carry a label, in order. */
  function LabelledIndices(n: nat): seq<nat> {
    Filter(Indices(n), LabelAt(n))
  }

  lemma {:induction false} EvenIndicesCount(n: nat)
    ensures |Filter(Indices(n), IsEven())| == (n + 1) / 2
  {
    if n > 0 {
      var last: seq<nat> := [n - 1];
      assert Indices(n) == Indices(n - 1) + last;
      EvenIndicesCount(n - 1);
      FilterConcat(Indices(n - 1), last, IsEven());
      assert Filter(last, IsEven()) == if (n - 1) % 2 == 0 then last else [];
    }
  }

  /**
   * The first and the last point are labelled, no two neighbours both go
   * without, and a series of `n > 0` points gets `n / 2 + 1` labels.
   */
  lemma {:induction false} AxisLabelling(n: nat)
    ensures n > 0 ==> ShowsLabel(0, n) && ShowsLabel(n - 1, n)
    ensures forall i :: 0 <= i < n - 1 ==> ShowsLabel(i, n) || ShowsLabel(i + 1, n)
    ensures |LabelledIndices(n)| == if n == 0 then 0 else n / 2 + 1
  {
    if n > 0 {
      var prefix, last: seq<nat> := Indices(n - 1), [n - 1];
      assert Indices(n) == prefix + last;
      FilterConcat(prefix, last, LabelAt(n));
      FilterCongruent(prefix, LabelAt(n), IsEven());
      EvenIndicesCount(n - 1);
      assert Filter(last, LabelAt(n)) == last;
    }
  }

  // ---------------------------------------------------------------------------
  // The dashed prediction polyline

  /** What rendering the card gives: a value, or a render-time exception. */
  datatype Render<T> = Drawn(value: T) | Crash

  /** The indices of the prediction points in `allData`. */
  function PredictionIndices(result: SimulationResult): (r: seq<int>)
    ensures |r| == |result.predictions|
    ensures forall i :: 0 <= i < |r| ==> r[i] == |result.historical| + i
  {
    seq(|result.predictions|, i requires 0 <= i < |result.predictions| => |result.historical| + i)
  }

  /**
   * The prediction polyline as written: drawn when there are predictions,
   * starting at the last historical point, which does not exist when the
   * history is empty; reading its `x` then throws.
   */
  function PredictionLineAsWritten(result: SimulationResult): (line: Render<seq<int>>)
    ensures line.Crash? <==> |result.historical| == 0 && |result.predictions| > 0
  {
    if |result.predictions| == 0 then Drawn([])
    else if |result.historical| == 0 then Crash
    else Drawn([|result.historical| - 1] + PredictionIndices(result))
  }

  /**
   * The simulator does produce such results: a selected code without recorded
   * history gets an empty history and at least one prediction, and its card
   * throws while drawing the prediction line.
   */
  lemma EmptyHistoryCrashesChart(result: SimulationResult, products: seq<Product>,
                                  history: map<string, seq<MonthSales>>, code: string,
                                  params: SimulationParams, draws: seq<real>)
    requires |draws| >= params.months && Simulator.ValidDraws(draws)
    requires Simulator.ResultFor(result, products, history, code, params, draws)
    requires code !in history
    ensures PredictionLineAsWritten(result).Crash?
  {
  }

  /**
   * The prediction polyline as intended: it joins the last historical point
   * when there is one and then runs through every prediction in order, and it
   * never refers to a point outside the series.
   */
  function PredictionLine(result: SimulationResult): (line: seq<int>)
    ensures |result.predictions| == 0 ==> line == []
    ensures forall k :: 0 <= k < |line| ==> 0 <= line[k] < |AllData(result)|
    ensures |result.predictions| <= |line|
    ensures line[|line| - |result.predictions|..] == PredictionIndices(result)
    ensures |result.predictions| > 0 && |result.historical| > 0 ==>
      line[0] == |result.historical| - 1 && |line| == |result.predictions| + 1
    ensures |result.historical| == 0 ==> line == PredictionIndices(result)
    ensures PredictionLineAsWritten(result).Drawn? ==> PredictionLineAsWritten(result).value == line
  {
    if |result.predictions| == 0 then []
    else if |result.historical| == 0 then PredictionIndices(result)
    else [|result.historical| - 1] + PredictionIndices(result)
  }

  /** Every card of a simulation result has a non-empty series, so `maxSales` is a number. */
  lemma SimulatedSeriesHasMaximum(result: SimulationResult, products: seq<Product>,
                                  history: map<string, seq<MonthSales>>, code: string,
                                  params: SimulationParams, draws: seq<real>)
    requires |draws| >= params.months && Simulator.ValidDraws(draws)
    requires Simulator.ResultFor(result, products, history, code, params, draws)
    ensures MaxSales(AllData(result)).Some?
  {
  }
}
