/** The product table of the simulator page (src/components/Simulator/ProductTable.tsx). */
module ProductTable {
  import opened Types
  import opened Seqs

  /** The header checkbox: ticked when the list is non-empty and as long as the selection. */
  predicate AllSelected(products: seq<Product>, selectedProducts: seq<string>) {
    |products| > 0 && |selectedProducts| == |products|
  }

  /** A row's checkbox: ticked when its code occurs in the selection. */
  predicate RowChecked(product: Product, selectedProducts: seq<string>) {
    product.code in selectedProducts
  }

  /** An empty table never shows a ticked header checkbox. */
  lemma {:induction false} EmptyTableNotAllSelected(selectedProducts: seq<string>)
    ensures !AllSelected([], selectedProducts)
  {
  }

  /**
   * The header checkbox compares lengths. When the selection is duplicate-free
   * and holds only codes of the (distinct-coded) rows, that length test is the
   * same as every row being ticked.
   */
  lemma {:induction false} AllSelectedIffEveryRowChecked(products: seq<Product>, selectedProducts: seq<string>)
    requires NoDup(Codes(products))
    requires NoDup(selectedProducts)
    requires forall c :: c in selectedProducts ==> c in Codes(products)
    ensures AllSelected(products, selectedProducts)
            <==> |products| > 0 && forall i :: 0 <= i < |products| ==> RowChecked(products[i], selectedProducts)
  {
    var codes := Codes(products);
    SameLengthIffSameElements(selectedProducts, codes);
    if forall i :: 0 <= i < |products| ==> RowChecked(products[i], selectedProducts) {
      forall c | c in codes ensures c in selectedProducts {
        var i :| 0 <= i < |codes| && codes[i] == c;
        assert RowChecked(products[i], selectedProducts);
      }
    }
    if forall c :: c in codes ==> c in selectedProducts {
      forall i | 0 <= i < |products| ensures RowChecked(products[i], selectedProducts) {
        assert codes[i] in codes;
      }
    }
  }

  /** Without those conditions the length test is not a membership test. */
  lemma LengthTestIsNotMembership()
    ensures var p := Product("OUR1000", "Producto Alpha", "Brasil", 60, 50, Alta, 120);
      AllSelected([p], ["OUR2000"]) && !RowChecked(p, ["OUR2000"])
  {
  }

  /** The CSS class of the sensitivity badge. */
  datatype BadgeClass = BadgeHigh | BadgeMedium | BadgeLow | NoClass

  /** `getSensitivityClass`: the three labels get their badge, any other string none. */
  function SensitivityClass(sensitivity: string): (c: BadgeClass)
    ensures c == BadgeHigh <==> sensitivity == "Alta"
    ensures c == BadgeMedium <==> sensitivity == "Media"
    ensures c == BadgeLow <==> sensitivity == "Baja"
  {
    if sensitivity == "Alta" then BadgeHigh
    else if sensitivity == "Media" then BadgeMedium
    else if sensitivity == "Baja" then BadgeLow
    else NoClass
  }

  /** Every sensitivity a product can have is shown with a badge, a different one for each. */
  lemma {:induction false} EverySensitivityHasItsBadge(s: Sensitivity, t: Sensitivity)
    ensures SensitivityClass(s.Label()) != NoClass
    ensures SensitivityClass(s.Label()) == SensitivityClass(t.Label()) ==> s == t
  {
    match s
    case Alta =>
    case Media =>
    case Baja =>
  }

  /** What one table row shows. */
  datatype Row = Row(
    checked: bool,
    code: string,
    name: string,
    country: string,
    leadTime: int,
    minQuantity: int,
    sensitivity: string,
    badge: BadgeClass,
    stock: int)

  function RowOf(product: Product, selectedProducts: seq<string>): Row {
    Row(RowChecked(product, selectedProducts), product.code, product.name, product.country,
        product.leadTime, product.minQuantity, product.pricesensitivity.Label(),
        SensitivityClass(product.pricesensitivity.Label()), product.stock)
  }

  /** `products.map(...)`: one row per product, in the order of the list. */
  function Rows(products: seq<Product>, selectedProducts: seq<string>): (rows: seq<Row>)
    ensures |rows| == |products|
    ensures forall i :: 0 <= i < |rows| ==>
      && rows[i].code == products[i].code
      && rows[i].stock == products[i].stock
      && (rows[i].checked <==> products[i].code in selectedProducts)
      && rows[i].badge != NoClass
  {
    seq(|products|, i requires 0 <= i < |products| =>
      EverySensitivityHasItsBadge(products[i].pricesensitivity, products[i].pricesensitivity);
      RowOf(products[i], selectedProducts))
  }
}
