/** A sellable inventory unit and its two derived metrics. */
module Products {
  import opened Wrappers
  import opened Scalars
  import opened Enums

  datatype Product = Product(
    name: string,
    description: string,
    sku: string,
    price: Cents,
    cost: Cents,
    stockQuantity: int,
    minimumStockLevel: int,
    category: ProductCategory,
    brand: string,
    unit: ProductUnit,
    isActive: bool,
    createdAt: Time,
    updatedAt: Option<Time>)

  /** A product built with only the property initialisers run: nothing in
      stock against a minimum of 0, so it starts out low on stock, and free,
      so its margin is 0. */
  function NewProduct(now: Time): (p: Product)
    ensures IsLowStock(p) && ProfitMargin(p) == 0.0
    ensures p.isActive && p.updatedAt == None && p.createdAt == now
  {
    Product("", "", "", 0, 0, 0, 0, Other, "", Piece, true, now, None)
  }

  lemma NewProductDefaults(now: Time)
    ensures NewProduct(now).minimumStockLevel == 0
    ensures NewProduct(now).category == Other
    ensures NewProduct(now).unit == Piece
    ensures NewProduct(now).isActive
    ensures NewProduct(now).updatedAt == None
  {
  }

  /** Stock at or below the minimum counts as low. An empty shelf is low at
      any minimum of 0 or more; a negative minimum never flags a product
      that has stock. */
  predicate IsLowStock(p: Product)
    ensures p.stockQuantity <= 0 <= p.minimumStockLevel ==> IsLowStock(p)
    ensures p.minimumStockLevel < 0 <= p.stockQuantity ==> !IsLowStock(p)
  {
    p.stockQuantity <= p.minimumStockLevel
  }

  /** The margin on price, in percent; 0 for a free or negatively priced
      product, where no division happens. Computed exactly. */
  function ProfitMargin(p: Product): (r: real)
    ensures p.price <= 0 ==> r == 0.0
    ensures p.price > 0 ==> r * (p.price as real) == ((p.price - p.cost) as real) * 100.0
  {
    if p.price > 0 then ((p.price - p.cost) as real / p.price as real) * 100.0 else 0.0
  }

  /** With the default minimum stock level of 0, a product is low on stock
      exactly when none (or less than none) is left. */
  lemma LowStockAtDefaultMinimum(p: Product)
    requires p.minimumStockLevel == 0
    ensures IsLowStock(p) <==> p.stockQuantity <= 0
  {
  }

  /** Selling more never lifts a low-stock product out of low stock. */
  lemma LowStockDownwardClosed(p: Product, q: int)
    requires IsLowStock(p) && q <= p.stockQuantity
    ensures IsLowStock(p.(stockQuantity := q))
  {
  }

  /** The margin reaches its extremes where expected and stays inside
      [0, 100] for a cost between 0 and the price. */
  lemma {:induction false} ProfitMarginBounds(p: Product)
    requires p.price > 0
    ensures p.cost == p.price ==> ProfitMargin(p) == 0.0
    ensures p.cost == 0 ==> ProfitMargin(p) == 100.0
    ensures p.cost >= 0 ==> ProfitMargin(p) <= 100.0
    ensures p.cost <= p.price ==> ProfitMargin(p) >= 0.0
  {
    var price, cost := p.price as real, p.cost as real;
    assert price > 0.0;
    assert p.cost >= 0 ==> cost >= 0.0;
    assert p.cost <= p.price ==> cost <= price;
    PercentBounds(ProfitMargin(p), price, cost);
  }

  /** m percent of `price` is `price - cost`: m lies in [0, 100] when the
      cost lies in [0, price]. */
  lemma PercentBounds(m: real, price: real, cost: real)
    requires price > 0.0
    requires m * price == (price - cost) * 100.0
    ensures cost >= 0.0 ==> m <= 100.0
    ensures cost <= price ==> m >= 0.0
  {
    assert (m - 100.0) * price == m * price - 100.0 * price;
    assert (m - 100.0) * price == 0.0 - 100.0 * cost;
  }

  /** The margin determines the cost back from the price: no information is
      lost when the price is positive. */
  lemma {:induction false} CostFromMargin(p: Product)
    requires p.price > 0
    ensures p.cost as real == (p.price as real) * (1.0 - ProfitMargin(p) / 100.0)
  {
    var m, price := ProfitMargin(p), p.price as real;
    assert m * price == ((p.price - p.cost) as real) * 100.0;
    calc {
      price * (1.0 - m / 100.0);
      price - (m * price) / 100.0;
      price - ((p.price - p.cost) as real);
    }
  }

  /** Both metrics read only stock/minimum and price/cost. */
  lemma DerivedFieldsIgnoreDescriptiveFields(p: Product, name: string, sku: string,
                                             brand: string, category: ProductCategory)
    ensures var q := p.(name := name, sku := sku, brand := brand, category := category);
            IsLowStock(q) == IsLowStock(p) && ProfitMargin(q) == ProfitMargin(p)
  {
  }

  /** A product priced 100.00 that costs 60.00 has a 40% margin; repricing it
      to 0 gives 0 instead of a division by zero. */
  lemma ProfitMarginExample(p: Product)
    requires p.price == 10000 && p.cost == 6000
    ensures ProfitMargin(p) == 40.0
    ensures ProfitMargin(p.(price := 0)) == 0.0
  {
  }

  /** Column length limits. The store does not enforce them. */
  predicate WithinLengths(p: Product) {
    && |p.name| <= 100
    && |p.description| <= 500
    && |p.sku| <= 50
    && |p.brand| <= 100
  }
}
