/**
 * `transform_data`: the three raw tables sanitized, reconciled into one table,
 * the derived columns added, and the three summaries computed from it.
 */
module Transform {
  import opened Wrappers
  import opened Tables
  import opened Passes
  import opened Sanitizer
  import opened Reconciler
  import opened Metrics
  import opened Aggregator

  /** The final table `transform_data` returns. */
  function Transformed(lib: Library, rawSales: seq<RawSale>, rawCustomers: seq<RawCustomer>,
                       rawProducts: seq<RawProduct>): (r: seq<Fact>) {
    WithMetrics(Reconcile(FilterMap(rawSales, SaleRule(lib)),
                          FilterMap(rawProducts, ProductRule(lib)),
                          FilterMap(rawCustomers, CustomerRule(lib))))
  }

  /** Lines 8-150: the whole transform, stage by stage. */
  method TransformData(lib: Library, rawSales: seq<RawSale>, rawCustomers: seq<RawCustomer>,
                       rawProducts: seq<RawProduct>) returns (facts: seq<Fact>, summaries: Summaries)
    ensures facts == Transformed(lib, rawSales, rawCustomers, rawProducts)
    ensures summaries == Summarize(facts)
    ensures forall f :: f in facts ==>
              f.rec.sale.price > 0.0 && f.rec.sale.quantity > 0.0 && f.rec.cost >= 0.0 &&
              f.totalValue > 0.0 && f.totalCost >= 0.0 && f.margin == f.totalValue - f.totalCost
  {
    var sales := SanitizeSales(lib, rawSales);
    var customers := SanitizeCustomers(lib, rawCustomers);
    var products := SanitizeProducts(lib, rawProducts);
    var rows := ReconcileTables(sales, products, customers);
    facts := WithMetrics(rows);
    summaries := Summarize(facts);
    TransformedFacts(lib, rawSales, rawCustomers, rawProducts);
  }

  /** A sanitized sale has a positive price and quantity. */
  lemma SanitizedSalePositive(lib: Library, rawSales: seq<RawSale>, s: Sale)
    requires s in FilterMap(rawSales, SaleRule(lib))
    ensures s.price > 0.0 && s.quantity > 0.0
  {
    FilterMapFrom(rawSales, SaleRule(lib), s);
  }

  /** A sanitized product has a cost that is not negative. */
  lemma SanitizedProductCost(lib: Library, rawProducts: seq<RawProduct>, p: Product)
    requires p in FilterMap(rawProducts, ProductRule(lib))
    ensures p.cost >= 0.0
  {
    FilterMapFrom(rawProducts, ProductRule(lib), p);
  }

  /** A reconciled row of sanitized tables has a positive price and quantity and a cost that is not negative. */
  lemma ReconciledRowBounds(lib: Library, rawSales: seq<RawSale>, rawCustomers: seq<RawCustomer>,
                            rawProducts: seq<RawProduct>, rec: Record)
    requires rec in Reconcile(FilterMap(rawSales, SaleRule(lib)), FilterMap(rawProducts, ProductRule(lib)),
                              FilterMap(rawCustomers, CustomerRule(lib)))
    ensures rec.sale.price > 0.0 && rec.sale.quantity > 0.0 && rec.cost >= 0.0
  {
    var products := FilterMap(rawProducts, ProductRule(lib));
    ReconciledRowProvenance(FilterMap(rawSales, SaleRule(lib)), products, FilterMap(rawCustomers, CustomerRule(lib)), rec);
    SanitizedSalePositive(lib, rawSales, rec.sale);
    if exists p :: p in products && p.id == rec.sale.productId {
      var p :| p in products && p.id == rec.sale.productId && rec.cost == p.cost;
      SanitizedProductCost(lib, rawProducts, p);
    }
  }

  /** The `i`-th row of the final table is derived from a reconciled row with a positive price and quantity and a cost that is not negative. */
  lemma TransformedRowBounds(lib: Library, rawSales: seq<RawSale>, rawCustomers: seq<RawCustomer>,
                             rawProducts: seq<RawProduct>, i: nat)
    requires i < |Transformed(lib, rawSales, rawCustomers, rawProducts)|
    ensures var f := Transformed(lib, rawSales, rawCustomers, rawProducts)[i];
      f == Derive(f.rec) && f.rec.sale.price > 0.0 && f.rec.sale.quantity > 0.0 && f.rec.cost >= 0.0
  {
    var rows := Reconcile(FilterMap(rawSales, SaleRule(lib)), FilterMap(rawProducts, ProductRule(lib)),
                          FilterMap(rawCustomers, CustomerRule(lib)));
    var rec := rows[i];
    assert Transformed(lib, rawSales, rawCustomers, rawProducts)[i] == Derive(rec);
    ReconciledRowBounds(lib, rawSales, rawCustomers, rawProducts, rec);
  }

  /**
   * Every row of the final table has a positive price and quantity, a cost
   * that is not negative, a positive value, a total cost that is not negative
   * and a margin equal to value minus cost.
   */
  lemma TransformedFacts(lib: Library, rawSales: seq<RawSale>, rawCustomers: seq<RawCustomer>,
                         rawProducts: seq<RawProduct>)
    ensures forall f :: f in Transformed(lib, rawSales, rawCustomers, rawProducts) ==>
              f.rec.sale.price > 0.0 && f.rec.sale.quantity > 0.0 && f.rec.cost >= 0.0 &&
              f.totalValue > 0.0 && f.totalCost >= 0.0 && f.margin == f.totalValue - f.totalCost
  {
    var facts := Transformed(lib, rawSales, rawCustomers, rawProducts);
    forall f | f in facts
      ensures f.rec.sale.price > 0.0 && f.rec.sale.quantity > 0.0 && f.rec.cost >= 0.0 &&
              f.totalValue > 0.0 && f.totalCost >= 0.0 && f.margin == f.totalValue - f.totalCost
    {
      var i :| 0 <= i < |facts| && facts[i] == f;
      TransformedRowBounds(lib, rawSales, rawCustomers, rawProducts, i);
      FactBounds(f);
    }
  }

  /**
   * The final table has one row per product match (or none) times customer
   * match (or none) of each sanitized sale, so at least one row per sanitized
   * sale: a sale is never lost by the joins.
   */
  lemma TransformedCount(lib: Library, rawSales: seq<RawSale>, rawCustomers: seq<RawCustomer>,
                         rawProducts: seq<RawProduct>)
    ensures |Transformed(lib, rawSales, rawCustomers, rawProducts)|
         == ReconciledCount(FilterMap(rawSales, SaleRule(lib)), FilterMap(rawProducts, ProductRule(lib)),
                            FilterMap(rawCustomers, CustomerRule(lib)))
    ensures |Transformed(lib, rawSales, rawCustomers, rawProducts)| >= |FilterMap(rawSales, SaleRule(lib))|
  {
    ReconcileCount(FilterMap(rawSales, SaleRule(lib)), FilterMap(rawProducts, ProductRule(lib)),
                   FilterMap(rawCustomers, CustomerRule(lib)));
  }

  /**
   * A row whose sale names a product that is not in the sanitized products
   * table is filled with "Produto Desconhecido", "Outros" and cost 0, so its
   * total cost is 0 and all of its value is margin.
   */
  lemma UnknownProductRow(lib: Library, rawSales: seq<RawSale>, rawCustomers: seq<RawCustomer>,
                          rawProducts: seq<RawProduct>, f: Fact)
    requires f in Transformed(lib, rawSales, rawCustomers, rawProducts)
    requires forall p :: p in FilterMap(rawProducts, ProductRule(lib)) ==> p.id != f.rec.sale.productId
    ensures f.rec.productName == "Produto Desconhecido" && f.rec.category == "Outros" && f.rec.cost == 0.0
    ensures f.totalCost == 0.0 && f.margin == f.totalValue
  {
    var sales := FilterMap(rawSales, SaleRule(lib));
    var products := FilterMap(rawProducts, ProductRule(lib));
    var customers := FilterMap(rawCustomers, CustomerRule(lib));
    var rows := Reconcile(sales, products, customers);
    var facts := Transformed(lib, rawSales, rawCustomers, rawProducts);
    var i :| 0 <= i < |facts| && facts[i] == f;
    assert f == Derive(rows[i]);
    ReconciledRowProvenance(sales, products, customers, rows[i]);
  }

  /**
   * When the sanitized products and customers have unique IDs, the final table
   * has exactly one row per sanitized sale, in order.
   */
  lemma TransformedOneToOne(lib: Library, rawSales: seq<RawSale>, rawCustomers: seq<RawCustomer>,
                            rawProducts: seq<RawProduct>)
    requires UniqueKeys(ProductId, FilterMap(rawProducts, ProductRule(lib)))
    requires UniqueKeys(CustomerId, FilterMap(rawCustomers, CustomerRule(lib)))
    ensures |Transformed(lib, rawSales, rawCustomers, rawProducts)| == |FilterMap(rawSales, SaleRule(lib))|
    ensures forall i :: 0 <= i < |FilterMap(rawSales, SaleRule(lib))| ==>
              Transformed(lib, rawSales, rawCustomers, rawProducts)[i].rec.sale == FilterMap(rawSales, SaleRule(lib))[i]
  {
    var sales := FilterMap(rawSales, SaleRule(lib));
    var products := FilterMap(rawProducts, ProductRule(lib));
    var customers := FilterMap(rawCustomers, CustomerRule(lib));
    ReconcileOneToOne(sales, products, customers);
  }

  // ------------------------------------------------------------- scenarios

  /** A sale whose date does not parse is dropped, and nothing else is produced. */
  lemma InvalidDateScenario(lib: Library, customers: seq<RawCustomer>, products: seq<RawProduct>)
    requires lib.toDatetime("2024-13-40").None?
    ensures Transformed(lib, [SaleRow(Some("2024-13-40"), Some("P1"), Some("C1"), Some("10,50"), Some("3"))],
                        customers, products) == []
  {
    var raw := SaleRow(Some("2024-13-40"), Some("P1"), Some("C1"), Some("10,50"), Some("3"));
    assert CleanSale(lib, raw).None?;
    assert FilterMap([raw], SaleRule(lib)) == [];
  }

  /** A sale joined with the one product and the one customer it names yields one reconciled row. */
  lemma ReconcileSingle(s: Sale, p: Product, c: Customer)
    requires s.productId == p.id && s.customerId == c.id
    ensures Reconcile([s], [p], [c]) == [Reconciled(s, Some(p), Some(c))]
  {
    ReconcileOneToOne([s], [p], [c]);
    assert MatchesOf(ProductId, s.productId, [p]) == [p];
    assert MatchesOf(CustomerId, s.customerId, [c]) == [c];
  }

  /**
   * A sale of 3 units at 10.5 joined with its one product (cost 5) and its one
   * customer ("João Silva") becomes one row of value 31.5, cost 15 and margin
   * 16.5.
   */
  lemma JoaoSilvaRow(s: Sale, p: Product, c: Customer)
    requires s.price == 10.5 && s.quantity == 3.0 && s.date == Date(2024, 1, 5)
    requires s.productId == p.id && p.cost == 5.0
    requires s.customerId == c.id && c.name == "João Silva"
    ensures var facts := WithMetrics(Reconcile([s], [p], [c]));
      |facts| == 1 && facts[0].rec.sale == s &&
      facts[0].totalValue == 31.5 && facts[0].totalCost == 15.0 && facts[0].margin == 16.5 &&
      facts[0].rec.customerName == "João Silva" && (facts[0].year, facts[0].month, facts[0].day) == (2024, 1, 5)
  {
    ReconcileSingle(s, p, c);
    var rec := Reconciled(s, Some(p), Some(c));
    assert WithMetrics([rec]) == [Derive(rec)];
  }

  /**
   * The sale of 3 units at "10,50" of product P1 (cost "5.00") to customer C1
   * ("joão silva") becomes one row of value 31.5, cost 15 and margin 16.5 for
   * customer "João Silva", given parsers that read those texts as expected.
   */
  lemma JoaoSilvaScenario(lib: Library, productName: Cell, category: Cell, city: Cell, state: Cell, email: Cell)
    requires lib.toDatetime("2024-01-05") == Some(Date(2024, 1, 5))
    requires lib.toNumeric("10.50") == Some(10.5) && lib.toNumeric("3") == Some(3.0)
    requires lib.toNumeric("5.00") == Some(5.0)
    requires lib.title("joão silva") == "João Silva"
    ensures var facts := Transformed(lib,
              [SaleRow(Some("2024-01-05"), Some("P1"), Some("C1"), Some("10,50"), Some("3"))],
              [CustomerRow(Some("C1"), Some("joão silva"), city, state, email)],
              [ProductRow(Some("P1"), productName, category, Some("5.00"))]);
      |facts| == 1 && facts[0].rec.sale.price == 10.5 && facts[0].rec.sale.quantity == 3.0 &&
      facts[0].totalValue == 31.5 && facts[0].totalCost == 15.0 && facts[0].margin == 16.5 &&
      facts[0].rec.customerName == "João Silva" && (facts[0].year, facts[0].month, facts[0].day) == (2024, 1, 5)
  {
    var rs := SaleRow(Some("2024-01-05"), Some("P1"), Some("C1"), Some("10,50"), Some("3"));
    var rc := CustomerRow(Some("C1"), Some("joão silva"), city, state, email);
    var rp := ProductRow(Some("P1"), productName, category, Some("5.00"));
    DecimalCommaPrice(lib);
    var s := CleanSale(lib, rs).value;
    var c := CleanCustomer(lib, rc).value;
    var p := CleanProduct(lib, rp).value;
    assert FilterMap([rs], SaleRule(lib)) == [s];
    assert FilterMap([rc], CustomerRule(lib)) == [c];
    assert FilterMap([rp], ProductRule(lib)) == [p];
    JoaoSilvaRow(s, p, c);
  }

  /**
   * Two rows, one of category "Eletrônicos" worth 100 and one of "Outros" worth
   * 50, give revenue by category [("Eletrônicos", 100), ("Outros", 50)].
   */
  lemma CategoryScenario(facts: seq<Fact>)
    requires |facts| == 2
    requires facts[0].rec.category == "Eletrônicos" && facts[0].totalValue == 100.0
    requires facts[1].rec.category == "Outros" && facts[1].totalValue == 50.0
    ensures RevenueByCategory(facts) == [("Eletrônicos", 100.0), ("Outros", 50.0)]
  {
    var pairs := Project(facts, CategoryOf);
    assert pairs == [("Eletrônicos", 100.0), ("Outros", 50.0)];
    assert pairs[..1] == [("Eletrônicos", 100.0)];
    assert GroupSum(pairs[..1]) == [("Eletrônicos", 100.0)];
    var groups := GroupSum(pairs);
    assert groups == [("Eletrônicos", 100.0), ("Outros", 50.0)];
    assert groups[1..] == [("Outros", 50.0)];
    assert SortDesc(groups[1..]) == [("Outros", 50.0)];
    assert SortDesc(groups) == InsertDesc(("Eletrônicos", 100.0), [("Outros", 50.0)]);
  }
}
