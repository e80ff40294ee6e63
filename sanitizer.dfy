/**
 * The field sanitizer: the cleaning rules of `transform_data` for the sales,
 * customers and products tables, each applied as one pass over its table in
 * the order the transform applies them. For each table a per-row function
 * (`CleanSale`, `CleanCustomer`, `CleanProduct`) gives the row's final
 * disposition, and a fusion lemma shows that the passes run in order amount
 * to one pass of it.
 */
module Sanitizer {
  import opened Wrappers
  import opened Tables
  import opened Passes

  // ---------------------------------------------------------------- sales

  type DatedSale = SaleRow<Date, Cell, Cell, Cell>
  type PricedSale = SaleRow<Date, Cell, real, Cell>
  type CountedSale = SaleRow<Date, Cell, real, real>

  /** `pd.to_datetime(errors='coerce')` on one cell: a missing cell is NaT. */
  function ParseDate(lib: Library, c: Cell): (r: Option<Date>) {
    match c
    case None => None
    case Some(s) => lib.toDatetime(s)
  }

  /** `str.replace(from, to)` on a single character: every occurrence is replaced. */
  function ReplaceChar(s: string, from: char, to: char): (r: string)
    ensures |r| == |s|
    ensures from != to ==> from !in r
    ensures forall i :: 0 <= i < |s| && s[i] == from ==> r[i] == to
    ensures forall i :: 0 <= i < |s| && s[i] != from ==> r[i] == s[i]
  {
    if s == [] then []
    else [if s[0] == from then to else s[0]] + ReplaceChar(s[1..], from, to)
  }

  /** The unit price: as text, decimal comma to point, parsed, NaN becoming 0. */
  function ParsePrice(lib: Library, c: Cell): (r: real) {
    lib.toNumeric(ReplaceChar(AsStr(c), ',', '.')).GetOr(0.0)
  }

  /** The quantity: parsed, NaN (unparseable or missing) becoming 1. */
  function ParseQuantity(lib: Library, c: Cell): (r: real) {
    match c
    case None => 1.0
    case Some(s) => lib.toNumeric(s).GetOr(1.0)
  }

  /** Parse `Data` and drop the rows whose date is NaT. */
  function DateRule(lib: Library): (rule: RawSale -> Option<DatedSale>) {
    (r: RawSale) => match ParseDate(lib, r.date)
         case None => None
         case Some(d) => Some(SaleRow(d, r.productId, r.customerId, r.price, r.quantity))
  }

  /** Parse `Preco_Unitario` and keep the rows whose price is positive. */
  function PriceRule(lib: Library): (rule: DatedSale -> Option<PricedSale>) {
    (r: DatedSale) => var p := ParsePrice(lib, r.price);
         if p > 0.0 then Some(SaleRow(r.date, r.productId, r.customerId, p, r.quantity)) else None
  }

  /** Parse `Quantidade` and keep the rows whose quantity is positive. */
  function QuantityRule(lib: Library): (rule: PricedSale -> Option<CountedSale>) {
    (r: PricedSale) => var q := ParseQuantity(lib, r.quantity);
         if q > 0.0 then Some(SaleRow(r.date, r.productId, r.customerId, r.price, q)) else None
  }

  /** Drop the rows missing `ID_Produto` or `ID_Cliente`. */
  function SaleIdRule(r: CountedSale): (res: Option<Sale>) {
    if r.productId.Some? && r.customerId.Some? then
      Some(SaleRow(r.date, r.productId.value, r.customerId.value, r.price, r.quantity))
    else None
  }

  /** What the four sales rules together do to one raw sale. */
  function CleanSale(lib: Library, r: RawSale): (s: Option<Sale>)
    ensures s.Some? <==>
      ParseDate(lib, r.date).Some? && ParsePrice(lib, r.price) > 0.0 &&
      ParseQuantity(lib, r.quantity) > 0.0 && r.productId.Some? && r.customerId.Some?
    ensures s.Some? ==>
      Some(s.value.date) == ParseDate(lib, r.date) &&
      s.value.price == ParsePrice(lib, r.price) > 0.0 && s.value.quantity == ParseQuantity(lib, r.quantity) > 0.0 &&
      Some(s.value.productId) == r.productId && Some(s.value.customerId) == r.customerId
  {
    match ParseDate(lib, r.date)
    case None => None
    case Some(d) =>
      var p := ParsePrice(lib, r.price);
      var q := ParseQuantity(lib, r.quantity);
      if p > 0.0 && q > 0.0 && r.productId.Some? && r.customerId.Some? then
        Some(SaleRow(d, r.productId.value, r.customerId.value, p, q))
      else None
  }

  function SaleRule(lib: Library): (rule: RawSale -> Option<Sale>) {
    (r: RawSale) => CleanSale(lib, r)
  }

  /** The four sales passes, run in order, are one pass of `CleanSale`. */
  lemma SalePassesFuse(lib: Library, raw: seq<RawSale>)
    ensures FilterMap(FilterMap(FilterMap(FilterMap(raw, DateRule(lib)), PriceRule(lib)), QuantityRule(lib)), SaleIdRule)
         == FilterMap(raw, SaleRule(lib))
  {
    var d, p, q := DateRule(lib), PriceRule(lib), QuantityRule(lib);
    FilterMapFusion(raw, d, p);
    FilterMapFusion(raw, Then(d, p), q);
    FilterMapFusion(raw, Then(Then(d, p), q), SaleIdRule);
    FilterMapCongruent(raw, Then(Then(Then(d, p), q), SaleIdRule), SaleRule(lib));
  }

  /** Lines 28-54: the sales table after its four cleaning rules. */
  method SanitizeSales(lib: Library, raw: seq<RawSale>) returns (sales: seq<Sale>)
    ensures sales == FilterMap(raw, SaleRule(lib))
    ensures forall s :: s in sales ==> s.price > 0.0 && s.quantity > 0.0
  {
    var dated := ApplyPass(raw, DateRule(lib));
    var priced := ApplyPass(dated, PriceRule(lib));
    var counted := ApplyPass(priced, QuantityRule(lib));
    sales := ApplyPass(counted, SaleIdRule);
    SalePassesFuse(lib, raw);
    forall s | s in sales ensures s.price > 0.0 && s.quantity > 0.0 {
      FilterMapFrom(raw, SaleRule(lib), s);
    }
  }

  /**
   * The j-th sanitized sale comes from the raw row at `Kept(raw, ...)[j]`: its
   * date is that row's parsed date, its price the parsed price (positive), its
   * quantity the parsed quantity (positive) and its two IDs that row's IDs.
   */
  lemma SanitizedSaleTrace(lib: Library, raw: seq<RawSale>, j: nat)
    requires j < |FilterMap(raw, SaleRule(lib))|
    ensures var s, idx := FilterMap(raw, SaleRule(lib)), Kept(raw, SaleRule(lib));
      j < |idx| && idx[j] < |raw| &&
      Some(s[j].date) == ParseDate(lib, raw[idx[j]].date) &&
      s[j].price == ParsePrice(lib, raw[idx[j]].price) > 0.0 &&
      s[j].quantity == ParseQuantity(lib, raw[idx[j]].quantity) > 0.0 &&
      Some(s[j].productId) == raw[idx[j]].productId && Some(s[j].customerId) == raw[idx[j]].customerId
  {
    FilterMapIsSubsequence(raw, SaleRule(lib));
  }

  /** A price written with a decimal comma is read as the decimal it denotes. */
  lemma DecimalCommaPrice(lib: Library)
    requires lib.toNumeric("10.50") == Some(10.5)
    ensures ParsePrice(lib, Some("10,50")) == 10.5
  {
    assert ReplaceChar("10,50", ',', '.') == "10.50";
  }

  /** A price that does not parse becomes 0, so its row is always dropped. */
  lemma UnparseablePriceDropsSale(lib: Library, r: RawSale)
    requires lib.toNumeric(ReplaceChar(AsStr(r.price), ',', '.')).None?
    ensures ParsePrice(lib, r.price) == 0.0
    ensures CleanSale(lib, r).None?
  {
  }

  /**
   * A quantity that does not parse becomes 1 and, the other fields being
   * valid, the row is kept; a quantity that parses to 0 or less drops it.
   */
  lemma QuantityDefaultAndFilter(lib: Library, r: RawSale)
    requires ParseDate(lib, r.date).Some? && ParsePrice(lib, r.price) > 0.0
    requires r.productId.Some? && r.customerId.Some?
    ensures r.quantity.None? || lib.toNumeric(r.quantity.value).None? ==>
              CleanSale(lib, r).Some? && CleanSale(lib, r).value.quantity == 1.0
    ensures r.quantity.Some? && lib.toNumeric(r.quantity.value).Some? && lib.toNumeric(r.quantity.value).value <= 0.0 ==>
              CleanSale(lib, r).None?
  {
  }

  // ------------------------------------------------------------ customers

  type NamedCustomer = CustomerRow<Cell, string, Cell>
  type PlacedCustomer = CustomerRow<Cell, string, string>

  /**
   * Title-case `Nome_Cliente`. The column is turned to text before the
   * null check, so a missing name is title-cased from "nan".
   */
  function NameRule(lib: Library): (rule: RawCustomer -> Option<NamedCustomer>) {
    (r: RawCustomer) => Some(CustomerRow(r.id, lib.title(AsStr(r.name)), r.city, r.state, r.email))
  }

  /** Title-case `Cidade` and upper-case `Estado`, both turned to text first. */
  function CityStateRule(lib: Library): (rule: NamedCustomer -> Option<PlacedCustomer>) {
    (r: NamedCustomer) => Some(CustomerRow(r.id, r.name, lib.title(AsStr(r.city)), lib.upper(AsStr(r.state)), r.email))
  }

  /** The fixed spelling correction of `Cidade`. */
  function FixCity(city: string): (c: string)
    ensures c != "Sao Paulo"
    ensures city == "Sao Paulo" ==> c == "São Paulo"
    ensures city != "Sao Paulo" ==> c == city
  {
    if city == "Sao Paulo" then "São Paulo" else city
  }

  function CitySpellingRule(r: PlacedCustomer): (res: Option<PlacedCustomer>) {
    Some(r.(city := FixCity(r.city)))
  }

  /** Drop the customers missing `ID_Cliente`. */
  function CustomerIdRule(r: PlacedCustomer): (res: Option<Customer>) {
    if r.id.Some? then Some(CustomerRow(r.id.value, r.name, r.city, r.state, r.email)) else None
  }

  /** What the customer rules together do to one raw customer. */
  function CleanCustomer(lib: Library, r: RawCustomer): (c: Option<Customer>)
    ensures c.Some? <==> r.id.Some?
    ensures c.Some? ==>
      Some(c.value.id) == r.id && c.value.name == lib.title(AsStr(r.name)) &&
      c.value.city == FixCity(lib.title(AsStr(r.city))) && c.value.state == lib.upper(AsStr(r.state)) &&
      c.value.email == r.email
  {
    if r.id.Some? then
      Some(CustomerRow(r.id.value, lib.title(AsStr(r.name)), FixCity(lib.title(AsStr(r.city))),
                       lib.upper(AsStr(r.state)), r.email))
    else None
  }

  function CustomerRule(lib: Library): (rule: RawCustomer -> Option<Customer>) {
    (r: RawCustomer) => CleanCustomer(lib, r)
  }

  /** The four customer passes, run in order, are one pass of `CleanCustomer`. */
  lemma CustomerPassesFuse(lib: Library, raw: seq<RawCustomer>)
    ensures FilterMap(FilterMap(FilterMap(FilterMap(raw, NameRule(lib)), CityStateRule(lib)), CitySpellingRule), CustomerIdRule)
         == FilterMap(raw, CustomerRule(lib))
  {
    var n, cs := NameRule(lib), CityStateRule(lib);
    FilterMapFusion(raw, n, cs);
    FilterMapFusion(raw, Then(n, cs), CitySpellingRule);
    FilterMapFusion(raw, Then(Then(n, cs), CitySpellingRule), CustomerIdRule);
    FilterMapCongruent(raw, Then(Then(Then(n, cs), CitySpellingRule), CustomerIdRule), CustomerRule(lib));
  }

  /** Lines 61-72: the customers table after its cleaning rules. */
  method SanitizeCustomers(lib: Library, raw: seq<RawCustomer>) returns (customers: seq<Customer>)
    ensures customers == FilterMap(raw, CustomerRule(lib))
    ensures forall c :: c in customers ==> c.city != "Sao Paulo"
  {
    var named := ApplyPass(raw, NameRule(lib));
    var placed := ApplyPass(named, CityStateRule(lib));
    var spelled := ApplyPass(placed, CitySpellingRule);
    customers := ApplyPass(spelled, CustomerIdRule);
    CustomerPassesFuse(lib, raw);
    forall c | c in customers ensures c.city != "Sao Paulo" {
      FilterMapFrom(raw, CustomerRule(lib), c);
    }
  }

  /**
   * The null guard never fires: a customer whose name, city or state is
   * missing keeps the title-cased (upper-cased) text "nan" instead.
   */
  lemma MissingCustomerFieldsBecomeNan(lib: Library, r: RawCustomer)
    requires r.id.Some? && r.name.None? && r.city.None? && r.state.None?
    ensures CleanCustomer(lib, r) ==
      Some(CustomerRow(r.id.value, lib.title("nan"), FixCity(lib.title("nan")), lib.upper("nan"), r.email))
  {
  }

  // ------------------------------------------------------------- products

  type CostedProduct = ProductRow<Cell, Cell, real>
  type CategorizedProduct = ProductRow<Cell, string, real>

  /** `Custo_Unitario` parsed, NaN (unparseable or missing) becoming 0. */
  function ParseCost(lib: Library, c: Cell): (r: real) {
    match c
    case None => 0.0
    case Some(s) => lib.toNumeric(s).GetOr(0.0)
  }

  /** Parse `Custo_Unitario` and keep the products whose cost is not negative. */
  function CostRule(lib: Library): (rule: RawProduct -> Option<CostedProduct>) {
    (r: RawProduct) => var c := ParseCost(lib, r.cost);
         if c >= 0.0 then Some(ProductRow(r.id, r.name, r.category, c)) else None
  }

  /** Title-case `Categoria`, turned to text first (a missing one from "nan"). */
  function TitleCategoryRule(lib: Library): (rule: CostedProduct -> Option<CategorizedProduct>) {
    (r: CostedProduct) => Some(ProductRow(r.id, r.name, lib.title(AsStr(r.category)), r.cost))
  }

  /** A category reading "Null" becomes NaN and then "Outros". */
  function NullCategoryRule(r: CategorizedProduct): (res: Option<CategorizedProduct>) {
    Some(r.(category := if r.category == "Null" then "Outros" else r.category))
  }

  /** The fixed spelling correction of `Categoria`. */
  function CategorySpellingRule(r: CategorizedProduct): (res: Option<CategorizedProduct>) {
    Some(r.(category := if r.category == "Eletronicos" then "Eletrônicos" else r.category))
  }

  /** Drop the products missing `ID_Produto`. */
  function ProductIdRule(r: CategorizedProduct): (res: Option<Product>) {
    if r.id.Some? then Some(ProductRow(r.id.value, r.name, r.category, r.cost)) else None
  }

  /** The category a raw `Categoria` cell ends up as. */
  function NormalizeCategory(lib: Library, c: Cell): (k: string)
    ensures k != "Null" && k != "Eletronicos"
    ensures lib.title(AsStr(c)) == "Null" ==> k == "Outros"
    ensures lib.title(AsStr(c)) == "Eletronicos" ==> k == "Eletrônicos"
    ensures lib.title(AsStr(c)) != "Null" && lib.title(AsStr(c)) != "Eletronicos" ==> k == lib.title(AsStr(c))
  {
    var t := lib.title(AsStr(c));
    if t == "Null" then "Outros" else if t == "Eletronicos" then "Eletrônicos" else t
  }

  /** What the product rules together do to one raw product. */
  function CleanProduct(lib: Library, r: RawProduct): (p: Option<Product>)
    ensures p.Some? <==> ParseCost(lib, r.cost) >= 0.0 && r.id.Some?
    ensures p.Some? ==>
      Some(p.value.id) == r.id && p.value.name == r.name && p.value.cost >= 0.0 &&
      p.value.cost == ParseCost(lib, r.cost) && p.value.category == NormalizeCategory(lib, r.category)
  {
    var c := ParseCost(lib, r.cost);
    if c >= 0.0 && r.id.Some? then
      Some(ProductRow(r.id.value, r.name, NormalizeCategory(lib, r.category), c))
    else None
  }

  function ProductRule(lib: Library): (rule: RawProduct -> Option<Product>) {
    (r: RawProduct) => CleanProduct(lib, r)
  }

  /** The five product passes, run in order, are one pass of `CleanProduct`. */
  lemma ProductPassesFuse(lib: Library, raw: seq<RawProduct>)
    ensures FilterMap(FilterMap(FilterMap(FilterMap(FilterMap(raw, CostRule(lib)), TitleCategoryRule(lib)),
              NullCategoryRule), CategorySpellingRule), ProductIdRule)
         == FilterMap(raw, ProductRule(lib))
  {
    var c, t := CostRule(lib), TitleCategoryRule(lib);
    FilterMapFusion(raw, c, t);
    FilterMapFusion(raw, Then(c, t), NullCategoryRule);
    FilterMapFusion(raw, Then(Then(c, t), NullCategoryRule), CategorySpellingRule);
    FilterMapFusion(raw, Then(Then(Then(c, t), NullCategoryRule), CategorySpellingRule), ProductIdRule);
    FilterMapCongruent(raw, Then(Then(Then(Then(c, t), NullCategoryRule), CategorySpellingRule), ProductIdRule),
                       ProductRule(lib));
  }

  /** Lines 78-94: the products table after its cleaning rules. */
  method SanitizeProducts(lib: Library, raw: seq<RawProduct>) returns (products: seq<Product>)
    ensures products == FilterMap(raw, ProductRule(lib))
    ensures forall p :: p in products ==> p.cost >= 0.0 && p.category != "Null"
  {
    var costed := ApplyPass(raw, CostRule(lib));
    var titled := ApplyPass(costed, TitleCategoryRule(lib));
    var defaulted := ApplyPass(titled, NullCategoryRule);
    var spelled := ApplyPass(defaulted, CategorySpellingRule);
    products := ApplyPass(spelled, ProductIdRule);
    ProductPassesFuse(lib, raw);
    forall p | p in products ensures p.cost >= 0.0 && p.category != "Null" {
      FilterMapFrom(raw, ProductRule(lib), p);
    }
  }

  /** A cost that does not parse (or is missing) becomes 0 and the product is kept. */
  lemma UnparseableCostKept(lib: Library, r: RawProduct)
    requires r.id.Some?
    requires r.cost.None? || lib.toNumeric(r.cost.value).None?
    ensures CleanProduct(lib, r).Some? && CleanProduct(lib, r).value.cost == 0.0
  {
  }

  /**
   * A missing category is not defaulted to "Outros": it becomes the
   * title-cased text "nan" unless that happens to read "Null".
   */
  lemma MissingCategoryBecomesNan(lib: Library, r: RawProduct)
    requires r.category.None?
    requires lib.title("nan") != "Null" && lib.title("nan") != "Eletronicos"
    ensures NormalizeCategory(lib, r.category) == lib.title("nan")
  {
  }
}
