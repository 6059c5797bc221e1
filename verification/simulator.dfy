/**
 * The simulator page (src/pages/Simulator.tsx): searching the catalogue,
 * selecting products, and building one simulation result per selected product.
 */
module Simulator {
  import opened Wrappers
  import opened Text
  import opened Seqs
  import opened Types
  import ProductTable

  // ---------------------------------------------------------------------------
  // Search

  /** A product matches a query when its code or its name contains it, ignoring case. */
  predicate MatchesQuery(product: Product, query: string) {
    || Contains(Lower(product.code), Lower(query))
    || Contains(Lower(product.name), Lower(query))
  }

  function Matching(query: string): Product -> bool {
    p => MatchesQuery(p, query)
  }

  /**
   * `handleSearch`: a query that is blank after trimming shows the whole
   * catalogue; otherwise the (untrimmed) query keeps the matching products,
   * in catalogue order.
   */
  function SearchProducts(products: seq<Product>, query: string): (visible: seq<Product>)
    ensures Trim(query) == "" ==> visible == products
    ensures Trim(query) != "" ==> forall p :: p in visible <==> p in products && MatchesQuery(p, query)
    ensures IsSubsequence(visible, products)
  {
    if Trim(query) == "" then
      FilterKeepsAll(products, p => true);
      FilterIsSubsequence(products, p => true);
      products
    else
      FilterIsSubsequence(products, Matching(query));
      Filter(products, Matching(query))
  }

  /** The search does not depend on the case of the query. */
  lemma SearchIgnoresQueryCase(products: seq<Product>, q1: string, q2: string)
    requires Lower(q1) == Lower(q2)
    ensures SearchProducts(products, q1) == SearchProducts(products, q2)
  {
    LowerBlank(q1);
    LowerBlank(q2);
    assert |q1| == |q2|;
    assert Trim(q1) == "" <==> Trim(q2) == "";
    if Trim(q1) != "" {
      FilterCongruent(products, Matching(q1), Matching(q2));
    }
  }

  /** Typing the query in lower case finds the same products. */
  lemma SearchByLowerCaseQuery(products: seq<Product>, query: string)
    ensures SearchProducts(products, Lower(query)) == SearchProducts(products, query)
  {
    LowerIdempotent(query);
    SearchIgnoresQueryCase(products, Lower(query), query);
  }

  /** A filter of a catalogue with distinct codes has distinct codes. */
  lemma {:induction false} FilteredCodesNoDup(products: seq<Product>, p: Product -> bool)
    requires NoDup(Codes(products))
    ensures NoDup(Codes(Filter(products, p)))
  {
    if |products| > 0 {
      var head, tail := products[0], products[1..];
      assert NoDup(Codes(tail)) by {
        forall i, j | 0 <= i < j < |tail| ensures tail[i].code != tail[j].code {
          assert Codes(products)[i + 1] != Codes(products)[j + 1];
        }
      }
      FilteredCodesNoDup(tail, p);
      var rest := Filter(tail, p);
      if p(head) {
        var kept := Filter(products, p);
        assert kept == [head] + rest;
        var codes := Codes(kept);
        forall i, j | 0 <= i < j < |codes| ensures codes[i] != codes[j] {
          assert codes[j] == rest[j - 1].code;
          if i == 0 {
            assert rest[j - 1] in tail;
            var k :| 0 <= k < |tail| && tail[k] == rest[j - 1];
            assert Codes(products)[0] != Codes(products)[k + 1];
          } else {
            assert codes[i] == Codes(rest)[i - 1] && codes[j] == Codes(rest)[j - 1];
          }
        }
      } else {
        assert Filter(products, p) == rest;
      }
    }
  }

  lemma SearchCodesNoDup(products: seq<Product>, query: string)
    requires NoDup(Codes(products))
    ensures NoDup(Codes(SearchProducts(products, query)))
  {
    if Trim(query) != "" {
      FilteredCodesNoDup(products, Matching(query));
    }
  }

  // ---------------------------------------------------------------------------
  // Selection

  function InList(codes: seq<string>): string -> bool {
    c => c in codes
  }

  function NotInList(codes: seq<string>): string -> bool {
    c => c !in codes
  }

  /**
   * The effect that runs whenever the visible list changes: the selection keeps,
   * in its order, the codes that are still visible.
   */
  function PruneSelection(selectedProducts: seq<string>, visible: seq<Product>): (pruned: seq<string>)
    ensures forall c :: c in pruned <==> c in selectedProducts && c in Codes(visible)
    ensures IsSubsequence(pruned, selectedProducts)
  {
    FilterIsSubsequence(selectedProducts, InList(Codes(visible)));
    Filter(selectedProducts, InList(Codes(visible)))
  }

  /** A selection of visible codes only is left as it is by the pruning effect. */
  lemma PruneKeepsVisibleSelection(selectedProducts: seq<string>, visible: seq<Product>)
    requires forall c :: c in selectedProducts ==> c in Codes(visible)
    ensures PruneSelection(selectedProducts, visible) == selectedProducts
  {
    FilterKeepsAll(selectedProducts, InList(Codes(visible)));
  }

  /**
   * `handleToggleProduct`: a selected code is removed (every occurrence of it),
   * an unselected one is appended at the end.
   */
  function ToggleProduct(selectedProducts: seq<string>, code: string): (toggled: seq<string>)
    ensures code in selectedProducts ==> code !in toggled
    ensures code in selectedProducts ==> forall c :: c != code ==> (c in toggled <==> c in selectedProducts)
    ensures code in selectedProducts ==> IsSubsequence(toggled, selectedProducts)
    ensures code !in selectedProducts ==> toggled == selectedProducts + [code]
  {
    if code in selectedProducts then
      FilterIsSubsequence(selectedProducts, NotInList([code]));
      Filter(selectedProducts, NotInList([code]))
    else
      selectedProducts + [code]
  }

  /** Toggling an unselected code twice gives the selection back. */
  lemma ToggleTwiceRestores(selectedProducts: seq<string>, code: string)
    requires code !in selectedProducts
    ensures ToggleProduct(ToggleProduct(selectedProducts, code), code) == selectedProducts
  {
    var drop := NotInList([code]);
    FilterConcat(selectedProducts, [code], drop);
    FilterKeepsAll(selectedProducts, drop);
    assert Filter([code], drop) == [];
  }

  /** Toggling keeps a duplicate-free selection duplicate-free. */
  lemma ToggleKeepsNoDup(selectedProducts: seq<string>, code: string)
    requires NoDup(selectedProducts)
    ensures NoDup(ToggleProduct(selectedProducts, code))
  {
    if code in selectedProducts {
      FilterNoDup(selectedProducts, NotInList([code]));
    }
  }

  /** `visibleCodes.every(code => selectedProducts.includes(code))`. */
  predicate AllVisibleSelected(selectedProducts: seq<string>, visible: seq<Product>) {
    forall c :: c in Codes(visible) ==> c in selectedProducts
  }

  /**
   * `handleToggleAll`: when every visible code is selected (vacuously so when
   * nothing is visible) the visible codes are deselected; otherwise the
   * selection becomes its invisible codes followed by all visible codes.
   */
  function ToggleAll(selectedProducts: seq<string>, visible: seq<Product>): (toggled: seq<string>)
    ensures AllVisibleSelected(selectedProducts, visible) ==>
      && IsSubsequence(toggled, selectedProducts)
      && forall c :: c in toggled <==> c in selectedProducts && c !in Codes(visible)
    ensures !AllVisibleSelected(selectedProducts, visible) ==>
      && |Codes(visible)| <= |toggled|
      && toggled[|toggled| - |Codes(visible)|..] == Codes(visible)
      && IsSubsequence(toggled[..|toggled| - |Codes(visible)|], selectedProducts)
      && forall c :: c in toggled[..|toggled| - |Codes(visible)|] <==> c in selectedProducts && c !in Codes(visible)
  {
    var visibleCodes := Codes(visible);
    var invisible := Filter(selectedProducts, NotInList(visibleCodes));
    FilterIsSubsequence(selectedProducts, NotInList(visibleCodes));
    if AllVisibleSelected(selectedProducts, visible) then
      invisible
    else
      assert (invisible + visibleCodes)[..|invisible|] == invisible;
      invisible + visibleCodes
  }

  /** After selecting all, every visible code is selected. */
  lemma ToggleAllSelectsEveryVisible(selectedProducts: seq<string>, visible: seq<Product>)
    requires !AllVisibleSelected(selectedProducts, visible)
    ensures AllVisibleSelected(ToggleAll(selectedProducts, visible), visible)
  {
  }

  /** With nothing visible, toggle-all leaves the selection as it is. */
  lemma ToggleAllNothingVisible(selectedProducts: seq<string>)
    ensures ToggleAll(selectedProducts, []) == selectedProducts
  {
    FilterKeepsAll(selectedProducts, NotInList([]));
  }

  /** Toggle-all keeps a duplicate-free selection duplicate-free ("sin duplicados"). */
  lemma ToggleAllKeepsNoDup(selectedProducts: seq<string>, visible: seq<Product>)
    requires NoDup(selectedProducts) && NoDup(Codes(visible))
    ensures NoDup(ToggleAll(selectedProducts, visible))
  {
    var visibleCodes := Codes(visible);
    var invisible := Filter(selectedProducts, NotInList(visibleCodes));
    FilterNoDup(selectedProducts, NotInList(visibleCodes));
    if !AllVisibleSelected(selectedProducts, visible) {
      var all := invisible + visibleCodes;
      forall i, j | 0 <= i < j < |all| ensures all[i] != all[j] {
        if i < |invisible| && |invisible| <= j {
          assert all[i] in invisible;
          assert all[j] == visibleCodes[j - |invisible|];
        }
      }
    }
  }

  /**
   * Selecting all and then toggling again deselects exactly the visible codes:
   * what remains is the invisible part of the original selection.
   */
  lemma ToggleAllTwice(selectedProducts: seq<string>, visible: seq<Product>)
    requires !AllVisibleSelected(selectedProducts, visible)
    ensures ToggleAll(ToggleAll(selectedProducts, visible), visible)
            == Filter(selectedProducts, NotInList(Codes(visible)))
  {
    var visibleCodes := Codes(visible);
    var drop := NotInList(visibleCodes);
    var invisible := Filter(selectedProducts, drop);
    ToggleAllSelectsEveryVisible(selectedProducts, visible);
    FilterConcat(invisible, visibleCodes, drop);
    FilterIdempotent(selectedProducts, drop);
    FilterKeepsNone(visibleCodes, drop);
  }

  /** `visibleSelectedCount`: how many selected codes are visible. */
  function VisibleSelectedCount(selectedProducts: seq<string>, visible: seq<Product>): (n: nat)
    ensures n <= |selectedProducts|
    ensures n == |PruneSelection(selectedProducts, visible)|
  {
    |Filter(selectedProducts, InList(Codes(visible)))|
  }

  /** For a duplicate-free selection the count is the number of distinct visible selected codes. */
  lemma {:induction false} VisibleSelectedCountIsIntersection(selectedProducts: seq<string>, visible: seq<Product>)
    requires NoDup(selectedProducts)
    ensures VisibleSelectedCount(selectedProducts, visible)
            == |Elements(selectedProducts) * Elements(Codes(visible))|
  {
    var kept := PruneSelection(selectedProducts, visible);
    FilterNoDup(selectedProducts, InList(Codes(visible)));
    NoDupCardinality(kept);
    assert Elements(kept) == Elements(selectedProducts) * Elements(Codes(visible));
  }

  // ---------------------------------------------------------------------------
  // Simulation results

  /** The labels of the forecast months, in order. */
  const MonthLabels: seq<string> := ["nov-25", "dic-25", "ene-26", "feb-26", "mar-26", "abr-26"]

  /** `mockHistoricalData[code] || []`: the recorded history, or none. */
  function HistoryOf(history: map<string, seq<MonthSales>>, code: string): seq<MonthSales> {
    if code in history then history[code] else []
  }

  /**
   * `historical[historical.length - 1]?.sales || 100`: the last recorded
   * figure, unless there is none or it is zero, in which case 100.
   */
  function BaseSales(historical: seq<MonthSales>): (base: int)
    ensures base != 0
    ensures |historical| > 0 && historical[|historical| - 1].sales != 0 ==> base == historical[|historical| - 1].sales
    ensures |historical| == 0 || historical[|historical| - 1].sales == 0 ==> base == 100
  {
    if |historical| == 0 || historical[|historical| - 1].sales == 0 then 100
    else historical[|historical| - 1].sales
  }

  /** `Math.round`: the nearest integer, halves rounded up. */
  function Round(x: real): (n: int)
    ensures n as real - 0.5 <= x < n as real + 0.5
  {
    (x + 0.5).Floor
  }

  /**
   * The randomized estimate for one month: the base scaled by a factor drawn
   * from [0.8, 1.2), then by 1.3 for a promotion, 1.2 for a fair and 0.85 for
   * rain, rounded.
   */
  function Estimate(base: int, draw: real, params: SimulationParams): int
    requires 0.0 <= draw < 1.0
  {
    var scaled := base as real * (0.8 + draw * 0.4);
    var promoted := if params.hasPromotion then scaled * 1.3 else scaled;
    var fair := if params.hasFair then promoted * 1.2 else promoted;
    var rainy := if params.hasRain then fair * 0.85 else fair;
    Round(rainy)
  }

  /**
   * A non-negative base never yields a negative estimate, and without any of
   * the three conditions the estimate stays within 80% to 120% of the base,
   * give or take the rounding.
   */
  lemma EstimateRange(base: int, draw: real, params: SimulationParams)
    requires base >= 0 && 0.0 <= draw < 1.0
    ensures Estimate(base, draw, params) >= 0
    ensures !params.hasPromotion && !params.hasFair && !params.hasRain ==>
      base as real * 0.8 - 0.5 <= Estimate(base, draw, params) as real <= base as real * 1.2 + 0.5
  {
    var b := base as real;
    assert 0.0 <= b * draw <= b by {
      assert b * draw <= b * 1.0;
    }
    var scaled := b * (0.8 + draw * 0.4);
    assert scaled == b * 0.8 + (b * draw) * 0.4;
    assert b * 0.8 <= scaled <= b * 1.2;
  }

  /** Every draw of the random source lies in [0, 1), as `Math.random` promises. */
  ghost predicate ValidDraws(draws: seq<real>) {
    forall i :: 0 <= i < |draws| ==> 0.0 <= draws[i] < 1.0
  }

  /**
   * The `for` loop of `handleSimulationSubmit`: one prediction per requested
   * month, labelled with the first `months` labels, each the estimate from the
   * base figure and that month's draw.
   */
  method GeneratePredictions(historical: seq<MonthSales>, params: SimulationParams, draws: seq<real>)
    returns (predictions: seq<MonthSales>)
    requires |draws| >= params.months && ValidDraws(draws)
    ensures |predictions| == params.months
    ensures forall i :: 0 <= i < |predictions| ==> predictions[i].month == MonthLabels[i]
    ensures forall i :: 0 <= i < |predictions| ==>
      predictions[i].sales == Estimate(BaseSales(historical), draws[i], params)
  {
    predictions := [];
    for i := 0 to params.months
      invariant |predictions| == i
      invariant forall k :: 0 <= k < i ==> predictions[k].month == MonthLabels[k]
      invariant forall k :: 0 <= k < i ==>
        predictions[k].sales == Estimate(BaseSales(historical), draws[k], params)
    {
      var baseSales := BaseSales(historical);
      var predictedSales := Estimate(baseSales, draws[i], params);
      predictions := predictions + [MonthSales(MonthLabels[i], predictedSales)];
    }
  }

  /** `products.find(p => p.code === code)`: the first product with that code. */
  function FindProduct(products: seq<Product>, code: string): (found: Option<Product>)
    ensures found.Some? <==> code in Codes(products)
    ensures found.Some? ==> found.value in products && found.value.code == code
    ensures found.Some? ==> exists i :: 0 <= i < |products| && products[i] == found.value
                                        && forall j :: 0 <= j < i ==> products[j].code != code
  {
    if |products| == 0 then None
    else if products[0].code == code then Some(products[0])
    else
      assert Codes(products) == [products[0].code] + Codes(products[1..]);
      var rest := FindProduct(products[1..], code);
      assert forall i :: 1 <= i < |products| ==> products[i] == products[1..][i - 1];
      if rest.Some? then
        var k :| 0 <= k < |products[1..]| && products[1..][k] == rest.value
                 && forall j :: 0 <= j < k ==> products[1..][j].code != code;
        assert products[k + 1] == rest.value;
        rest
      else
        rest
  }

  /**
   * The stock verdict of a result: sufficient exactly when the stock covers the
   * predicted total; the shortfall present exactly when it does not, and then
   * the positive amount missing.
   */
  ghost predicate StockVerdictHolds(result: SimulationResult) {
    var total := TotalSales(result.predictions);
    && (result.stockSufficient <==> result.stock >= total)
    && (result.shortfall.Some? <==> result.stock < total)
    && (result.shortfall.Some? ==> result.shortfall.value == total - result.stock > 0)
  }

  /** What the page promises of the result for the `k`-th selected code. */
  ghost predicate ResultFor(result: SimulationResult, products: seq<Product>, history: map<string, seq<MonthSales>>,
                            code: string, params: SimulationParams, draws: seq<real>)
    requires |draws| >= params.months && ValidDraws(draws)
  {
    && result.productCode == code
    && result.historical == HistoryOf(history, code)
    && |result.predictions| == params.months
    && (forall i :: 0 <= i < |result.predictions| ==>
          && result.predictions[i].month == MonthLabels[i]
          && result.predictions[i].sales == Estimate(BaseSales(HistoryOf(history, code)), draws[i], params))
    && FindProduct(products, code).Some?
    && result.stock == FindProduct(products, code).value.stock
    && StockVerdictHolds(result)
  }

  ghost predicate ValidDrawTable(draws: seq<seq<real>>, count: nat, params: SimulationParams) {
    |draws| == count && forall k :: 0 <= k < |draws| ==> |draws[k]| >= params.months && ValidDraws(draws[k])
  }

  /**
   * `selectedProducts.map(...)` in `handleSimulationSubmit`: one result per
   * selected code, in selection order. Each product draws its own random
   * factors, one row of `draws` per selected code.
   */
  method BuildResults(products: seq<Product>, history: map<string, seq<MonthSales>>,
                      selectedProducts: seq<string>, params: SimulationParams, draws: seq<seq<real>>)
    returns (results: seq<SimulationResult>)
    requires forall c :: c in selectedProducts ==> c in Codes(products)
    requires ValidDrawTable(draws, |selectedProducts|, params)
    ensures |results| == |selectedProducts|
    ensures forall k :: 0 <= k < |results| ==>
      ResultFor(results[k], products, history, selectedProducts[k], params, draws[k])
  {
    results := [];
    for k := 0 to |selectedProducts|
      invariant |results| == k
      invariant forall j :: 0 <= j < k ==>
        ResultFor(results[j], products, history, selectedProducts[j], params, draws[j])
    {
      var code := selectedProducts[k];
      var product := FindProduct(products, code).value;
      var historical := HistoryOf(history, code);
      var predictions := GeneratePredictions(historical, params, draws[k]);
      var totalPredicted := TotalSales(predictions);
      var shortfall := if product.stock < totalPredicted then Some(totalPredicted - product.stock) else None;
      var result := SimulationResult(code, historical, predictions, product.stock,
                                     product.stock >= totalPredicted, shortfall);
      results := results + [result];
    }
  }

  // ---------------------------------------------------------------------------
  // The page's state

  class SimulatorPage {
    const products: seq<Product>
    var filteredProducts: seq<Product>
    var selectedProducts: seq<string>
    var showSimulationForm: bool
    var simulationResults: seq<SimulationResult>

    /** Codes are distinct (they key the table rows) and the selection has no duplicates. */
    ghost predicate Valid()
      reads this
    {
      && NoDup(Codes(products))
      && (forall p :: p in filteredProducts ==> p in products)
      && NoDup(Codes(filteredProducts))
      && NoDup(selectedProducts)
    }

    /** Every selected code is on a visible row. */
    ghost predicate SelectionVisible()
      reads this
    {
      forall c :: c in selectedProducts ==> c in Codes(filteredProducts)
    }

    constructor (catalogue: seq<Product>)
      requires NoDup(Codes(catalogue))
      ensures Valid() && SelectionVisible()
      ensures products == catalogue && filteredProducts == catalogue
      ensures selectedProducts == [] && !showSimulationForm && simulationResults == []
    {
      products := catalogue;
      filteredProducts := catalogue;
      selectedProducts := [];
      showSimulationForm := false;
      simulationResults := [];
    }

    /** `handleSearch`, followed by the effect that prunes the selection. */
    method HandleSearch(query: string)
      requires Valid()
      modifies this
      ensures filteredProducts == SearchProducts(products, query)
      ensures selectedProducts == PruneSelection(old(selectedProducts), filteredProducts)
      ensures showSimulationForm == old(showSimulationForm) && simulationResults == old(simulationResults)
      ensures Valid() && SelectionVisible()
    {
      var visible := SearchProducts(products, query);
      SearchCodesNoDup(products, query);
      assert forall p :: p in visible ==> p in products;
      var pruned := PruneSelection(selectedProducts, visible);
      FilterNoDup(selectedProducts, InList(Codes(visible)));
      filteredProducts, selectedProducts := visible, pruned;
    }

    /** `handleToggleProduct`, for the code of a clicked row. */
    method HandleToggleProduct(code: string)
      requires Valid()
      modifies this`selectedProducts
      ensures selectedProducts == ToggleProduct(old(selectedProducts), code)
      ensures Valid()
      ensures old(SelectionVisible()) && code in Codes(filteredProducts) ==> SelectionVisible()
    {
      ToggleKeepsNoDup(selectedProducts, code);
      selectedProducts := ToggleProduct(selectedProducts, code);
    }

    /** `handleToggleAll`, the header checkbox. */
    method HandleToggleAll()
      requires Valid()
      modifies this`selectedProducts
      ensures selectedProducts == ToggleAll(old(selectedProducts), filteredProducts)
      ensures Valid()
      ensures old(SelectionVisible()) ==> SelectionVisible()
    {
      ToggleAllKeepsNoDup(selectedProducts, filteredProducts);
      selectedProducts := ToggleAll(selectedProducts, filteredProducts);
    }

    /** `handleStartSimulation`: refused with nothing selected, else shows the form. */
    method HandleStartSimulation() returns (started: bool)
      modifies this`showSimulationForm
      ensures started <==> |selectedProducts| > 0
      ensures showSimulationForm == (started || old(showSimulationForm))
    {
      if |selectedProducts| == 0 {
        return false;
      }
      showSimulationForm := true;
      started := true;
    }

    /** `handleSimulationSubmit`: stores one result per selected code and hides the form. */
    method HandleSimulationSubmit(params: SimulationParams, history: map<string, seq<MonthSales>>,
                                  draws: seq<seq<real>>)
      requires Valid() && SelectionVisible()
      requires ValidDrawTable(draws, |selectedProducts|, params)
      modifies this`simulationResults, this`showSimulationForm
      ensures |simulationResults| == |selectedProducts|
      ensures forall k :: 0 <= k < |simulationResults| ==>
        ResultFor(simulationResults[k], products, history, selectedProducts[k], params, draws[k])
      ensures !showSimulationForm
    {
      forall c | c in selectedProducts ensures c in Codes(products) {
        var i :| 0 <= i < |filteredProducts| && Codes(filteredProducts)[i] == c;
        assert filteredProducts[i] in filteredProducts;
        var j :| 0 <= j < |products| && products[j] == filteredProducts[i];
        assert Codes(products)[j] == c;
      }
      simulationResults := BuildResults(products, history, selectedProducts, params, draws);
      showSimulationForm := false;
    }

    /** `handleCancelSimulation`. */
    method HandleCancelSimulation()
      modifies this`showSimulationForm
      ensures !showSimulationForm
    {
      showSimulationForm := false;
    }

    /** `handleNewSimulation`: clears the results and the selection and hides the form. */
    method HandleNewSimulation()
      requires Valid()
      modifies this`simulationResults, this`selectedProducts, this`showSimulationForm
      ensures simulationResults == [] && selectedProducts == [] && !showSimulationForm
      ensures Valid() && SelectionVisible()
    {
      simulationResults := [];
      selectedProducts := [];
      showSimulationForm := false;
    }

    /** The header checkbox of the table the page renders, for the current state. */
    function HeaderChecked(): bool
      reads this
    {
      ProductTable.AllSelected(filteredProducts, selectedProducts)
    }

    /** `visibleSelectedCount` for the current state. */
    function VisibleCount(): nat
      reads this
    {
      VisibleSelectedCount(selectedProducts, filteredProducts)
    }
  }

  /**
   * On every state the page reaches, the header checkbox's length test means
   * what it says: every visible row is ticked. And the count of visible
   * selected codes is the length of the selection.
   */
  lemma PageHeaderMeansAllVisibleSelected(page: SimulatorPage)
    requires page.Valid() && page.SelectionVisible()
    ensures page.HeaderChecked()
            <==> (|page.filteredProducts| > 0 && AllVisibleSelected(page.selectedProducts, page.filteredProducts))
    ensures page.VisibleCount() == |page.selectedProducts|
  {
    var visible, selected := page.filteredProducts, page.selectedProducts;
    ProductTable.AllSelectedIffEveryRowChecked(visible, selected);
    PruneKeepsVisibleSelection(selected, visible);
    if forall i :: 0 <= i < |visible| ==> ProductTable.RowChecked(visible[i], selected) {
      forall c | c in Codes(visible) ensures c in selected {
        var i :| 0 <= i < |visible| && Codes(visible)[i] == c;
        assert ProductTable.RowChecked(visible[i], selected);
      }
    }
  }
}
