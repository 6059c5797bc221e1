/** The records the simulator pages pass around (src/types.ts). */
module Types {
  import opened Wrappers

  /** How strongly a product's demand reacts to price: the `pricesensitivity` union. */
  datatype Sensitivity = Alta | Media | Baja {
    /** The literal the union type is spelled with. */
    function Label(): string {
      match this
      case Alta => "Alta"
      case Media => "Media"
      case Baja => "Baja"
    }
  }

  /** A catalogue entry of the simulator. */
  datatype Product = Product(
    code: string,
    name: string,
    country: string,
    leadTime: int,
    minQuantity: int,
    pricesensitivity: Sensitivity,
    stock: int)

  /** One month of sales, used both for the history and for the predictions. */
  datatype MonthSales = MonthSales(month: string, sales: int)

  /** The forecast horizons the simulation form offers. */
  type Months = m: nat | m == 1 || m == 2 || m == 3 || m == 6 witness 1

  datatype SimulationParams = SimulationParams(
    months: Months,
    hasRain: bool,
    hasPromotion: bool,
    hasFair: bool)

  /** The outcome of simulating one product; `shortfall` is the optional field. */
  datatype SimulationResult = SimulationResult(
    productCode: string,
    historical: seq<MonthSales>,
    predictions: seq<MonthSales>,
    stock: int,
    stockSufficient: bool,
    shortfall: Option<int>)

  /** `products.map(p => p.code)`: the codes of a product list, in order. */
  function Codes(products: seq<Product>): (codes: seq<string>)
    ensures |codes| == |products|
    ensures forall i :: 0 <= i < |products| ==> codes[i] == products[i].code
  {
    if |products| == 0 then [] else [products[0].code] + Codes(products[1..])
  }

  /** `reduce((sum, p) => sum + p.sales, 0)`: the total of the sales figures. */
  function TotalSales(data: seq<MonthSales>): int {
    if |data| == 0 then 0 else TotalSales(data[..|data| - 1]) + data[|data| - 1].sales
  }

  /** The total of a concatenation is the sum of the totals. */
  lemma {:induction false} TotalSalesConcat(a: seq<MonthSales>, b: seq<MonthSales>)
    ensures TotalSales(a + b) == TotalSales(a) + TotalSales(b)
    decreases |b|
  {
    if |b| > 0 {
      assert (a + b)[..|a + b| - 1] == a + b[..|b| - 1];
      TotalSalesConcat(a, b[..|b| - 1]);
    } else {
      assert a + b == a;
    }
  }

  /** With no negative figure, the total bounds every single figure. */
  lemma {:induction false} TotalSalesBoundsEach(data: seq<MonthSales>, i: nat)
    requires forall k :: 0 <= k < |data| ==> data[k].sales >= 0
    requires i < |data|
    ensures 0 <= data[i].sales <= TotalSales(data)
  {
    var init := data[..|data| - 1];
    if i < |data| - 1 {
      TotalSalesBoundsEach(init, i);
    } else {
      TotalSalesNonNegative(init);
    }
  }

  lemma {:induction false} TotalSalesNonNegative(data: seq<MonthSales>)
    requires forall k :: 0 <= k < |data| ==> data[k].sales >= 0
    ensures TotalSales(data) >= 0
  {
    if |data| > 0 {
      TotalSalesNonNegative(data[..|data| - 1]);
    }
  }
}
