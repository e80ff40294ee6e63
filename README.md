# transform_data, modelled in Dafny

This project models `transform_data` from `src/transform.py`, the transform stage of a
small e-commerce ETL pipeline. The function takes three raw tables: sales
(`Data`, `ID_Produto`, `ID_Cliente`, `Preco_Unitario`, `Quantidade`), customers
(`ID_Cliente`, `Nome_Cliente`, `Cidade`, `Estado`, `Email`) and products
(`ID_Produto`, `Nome_Produto`, `Categoria`, `Custo_Unitario`). It works in four stages:

1. **Sanitizer** (`sanitizer.dfy`). It parses, repairs and filters each table column by column.
   - Sales:
     - invalid dates are dropped;
     - a decimal comma in the price becomes a point;
     - an unparseable price becomes 0 and then fails the `> 0` filter;
     - an unparseable quantity becomes 1;
     - a quantity `<= 0` is dropped;
     - a row missing either ID is dropped.
   - Customers:
     - name and city are title-cased and state is upper-cased;
     - "Sao Paulo" becomes "São Paulo";
     - a row missing `ID_Cliente` is dropped.
   - Products:
     - an unparseable cost becomes 0;
     - a negative cost is dropped;
     - the category is title-cased, "Null" becomes "Outros", and "Eletronicos" becomes "Eletrônicos";
     - a row missing `ID_Produto` is dropped.
2. **Reconciler** (`reconciler.dfy`). It left-joins the sales with the products on
   `ID_Produto`, then that result with the customers on `ID_Cliente`. Every empty
   product or customer column is then filled with a fixed default. That covers the
   columns of a sale with no match, and also a missing `Nome_Produto` of a matched
   product and a missing `Email` of a matched customer.
3. **Metric calculator** (`metrics.dfy`). It adds value = quantity × price,
   cost = quantity × unit cost, margin = value − cost, and year, month and day.
4. **Aggregator** (`aggregator.dfy`). It computes three summaries:
   - revenue per category, sorted by revenue, largest first;
   - the five customer names with the largest revenue;
   - revenue per (year, month), in ascending key order.

`transform.dfy` chains the four stages as `Transform.TransformData`.

Each cleaning step works on a whole column in the source. The model treats each step as
one *pass* (`passes.dfy`): a per-row rule `A -> Option<B>` applied to every row in order,
where `None` drops the row.
- `Passes.ApplyPass` is the loop. It is proved equal to the function `FilterMap`.
- The sanitizer methods run the source's passes in the source's order.
- Fusion lemmas then show that the chain of passes equals a single pass of a per-row
  function (`CleanSale`, `CleanCustomer`, `CleanProduct`). The properties are proved
  about those functions.
- Likewise, `LeftJoinRows` is the nested loop of a left join. It is proved equal to the
  function `LeftJoin`.

Raw cells and numbers are modelled as follows:
- A raw cell is `Option<string>`, where `None` is pandas' NaN. `.astype(str)` is
  `AsStr`, which turns NaN into the text "nan".
- The pandas parsers `to_datetime` and `to_numeric` and the string methods `title` and
  `upper` are arbitrary total functions from one value to one result. They are bundled in
  a `Library` value, and every property holds whatever each of them returns for a given
  value. A scenario lemma states what it assumes about them. A parse that depends on the
  other cells of its column is not covered (see "## Left out").
- Numbers are exact reals.

The source's own comments promise more than its code does for missing name, city, state
and category cells. The comment at `src/transform.py:60` says that NaNs are handled before
`str.title()` is applied. The comment at `src/transform.py:86` says that the "null" values
that became "Null" after `.title()` are then treated, which ends in "Outros". But the code
calls `.astype(str)` before its `pd.notnull` guard (`src/transform.py:61`, `:65`, `:66`,
`:85`). A NaN has therefore already become the text "nan", the guard never fires, and a
missing cell becomes `title("nan")` (or `upper("nan")`); a missing category does not
become "Outros". The model follows the code: see `Sanitizer.MissingCustomerFieldsBecomeNan`
and `Sanitizer.MissingCategoryBecomesNan`.

## Model

| member | source | states |
|---|---|---|
| Passes.FilterMap | src/transform.py:32 | a pass never yields more rows than it is given |
| Passes.ApplyPass | src/transform.py:43 | the loop applying one row rule (column rewrite or row filter) to a table yields exactly `FilterMap` of that rule |
| Passes.FilterMapIsSubsequence | src/transform.py:43 | a pass neither invents nor reorders rows: the output is the rule's image of the input rows at ascending kept indices, and every row the rule keeps is among them |
| Passes.FilterMapFrom | src/transform.py:50 | every output row is the image under the rule of some input row |
| Passes.FilterMapFusion | src/transform.py:28-54 | two passes in a row equal one pass of the composed rule |
| Passes.FilterMapCongruent | src/transform.py:28-54 | two rules that agree on every row give the same pass |
| Passes.FilterMapTotal | src/transform.py:111-118 | a rule that drops no row (a `fillna`) keeps the table's length and rewrites row i into output row i |
| Tables.AsStr | src/transform.py:37 | definition of `.astype(str)` on one cell: text is kept and NaN becomes "nan"; used by `ParsePrice`, `CleanCustomer` and `NormalizeCategory` |
| Sanitizer.ParseDate | src/transform.py:28 | definition: a missing cell is NaT, any other is the library parse of its text; see the `CleanSale` row |
| Sanitizer.ReplaceChar | src/transform.py:37 | replacing ',' by '.' keeps the length, turns every ',' into '.', leaves no ',' and changes no other character |
| Sanitizer.ParsePrice | src/transform.py:37-41 | definition: the cell as text, decimal comma turned into a point, parsed, NaN becoming 0; see the `DecimalCommaPrice` and `UnparseablePriceDropsSale` rows |
| Sanitizer.ParseQuantity | src/transform.py:47-48 | definition: a missing cell is 1, any other is its parse, NaN becoming 1; see the `QuantityDefaultAndFilter` row |
| Sanitizer.DateRule | src/transform.py:28-32 | definition of the date pass: parse `Data` and drop a row whose date is NaT; see the `SalePassesFuse` row |
| Sanitizer.PriceRule | src/transform.py:37-43 | definition of the price pass: parse `Preco_Unitario` and keep a row whose price is > 0; see the `SalePassesFuse` row |
| Sanitizer.QuantityRule | src/transform.py:47-50 | definition of the quantity pass: parse `Quantidade` and keep a row whose quantity is > 0; see the `SalePassesFuse` row |
| Sanitizer.SaleIdRule | src/transform.py:54 | definition of the ID pass: drop a row missing `ID_Produto` or `ID_Cliente`; see the `SalePassesFuse` row |
| Sanitizer.CleanSale | src/transform.py:28-54 | a raw sale is kept iff its date parses, its price (comma to point, NaN to 0) is > 0, its quantity (NaN to 1) is > 0 and both IDs are present; the kept sale carries exactly that parsed date, `ParsePrice` and `ParseQuantity` of its cells, and its IDs |
| Sanitizer.SalePassesFuse | src/transform.py:28-54 | the four sales passes (date, price, quantity, IDs) in order equal one pass of `CleanSale` |
| Sanitizer.SanitizeSales | src/transform.py:28-54 | the sales table after the four passes is `FilterMap(raw, CleanSale)`, and every sale left has price > 0 and quantity > 0 |
| Sanitizer.SanitizedSaleTrace | src/transform.py:28-54 | the j-th clean sale comes from the raw row at the j-th kept index, with that row's parsed date, price, quantity and IDs |
| Sanitizer.DecimalCommaPrice | src/transform.py:37-39 | the price "10,50" is read as 10.5 when "10.50" parses to 10.5 |
| Sanitizer.UnparseablePriceDropsSale | src/transform.py:39-43 | an unparseable price becomes 0 and its sale is always dropped |
| Sanitizer.QuantityDefaultAndFilter | src/transform.py:47-50 | a missing or unparseable quantity becomes 1 and the sale is kept; one that parses to 0 or less drops the sale |
| Sanitizer.NameRule | src/transform.py:61 | definition of the name pass: `Nome_Cliente` as text, title-cased; see the `CustomerPassesFuse` row |
| Sanitizer.CityStateRule | src/transform.py:65-66 | definition of the city and state pass: `Cidade` as text title-cased, `Estado` as text upper-cased; see the `CustomerPassesFuse` row |
| Sanitizer.FixCity | src/transform.py:68 | "Sao Paulo" becomes "São Paulo", any other city is unchanged, so no corrected city is "Sao Paulo" |
| Sanitizer.CitySpellingRule | src/transform.py:68 | definition of the spelling pass on `Cidade`, through `FixCity`; see the `CustomerPassesFuse` row |
| Sanitizer.CustomerIdRule | src/transform.py:72 | definition of the ID pass: drop a customer missing `ID_Cliente`; see the `CustomerPassesFuse` row |
| Sanitizer.CleanCustomer | src/transform.py:61-72 | a raw customer is kept iff its ID is present; it gets the title-cased name, the title-cased and spelling-fixed city, the upper-cased state and its e-mail unchanged |
| Sanitizer.CustomerPassesFuse | src/transform.py:61-72 | the four customer passes in order equal one pass of `CleanCustomer` |
| Sanitizer.SanitizeCustomers | src/transform.py:61-72 | the customers table after its passes is `FilterMap(raw, CleanCustomer)`, and no city left is "Sao Paulo" |
| Sanitizer.MissingCustomerFieldsBecomeNan | src/transform.py:61-66 | missing name, city and state are not kept as missing: they become title("nan"), the fixed title("nan") and upper("nan") |
| Sanitizer.ParseCost | src/transform.py:78-79 | definition: a missing cell is 0, any other is its parse, NaN becoming 0; see the `UnparseableCostKept` row |
| Sanitizer.CostRule | src/transform.py:78-81 | definition of the cost pass: parse `Custo_Unitario` and keep a product whose cost is >= 0; see the `ProductPassesFuse` row |
| Sanitizer.TitleCategoryRule | src/transform.py:85 | definition of the category pass: `Categoria` as text, title-cased; see the `ProductPassesFuse` row |
| Sanitizer.NullCategoryRule | src/transform.py:87-88 | definition: a category reading "Null" becomes NaN and then "Outros"; see the `ProductPassesFuse` row |
| Sanitizer.CategorySpellingRule | src/transform.py:90 | definition: "Eletronicos" becomes "Eletrônicos"; see the `ProductPassesFuse` row |
| Sanitizer.ProductIdRule | src/transform.py:94 | definition of the ID pass: drop a product missing `ID_Produto`; see the `ProductPassesFuse` row |
| Sanitizer.NormalizeCategory | src/transform.py:85-90 | the final category is never "Null" nor "Eletronicos": "Null" becomes "Outros", "Eletronicos" becomes "Eletrônicos", and any other title-cased value is kept |
| Sanitizer.CleanProduct | src/transform.py:78-94 | a raw product is kept iff its parsed cost (NaN to 0) is >= 0 and its ID is present; it carries that cost and the normalized category |
| Sanitizer.ProductPassesFuse | src/transform.py:78-94 | the five product passes in order equal one pass of `CleanProduct` |
| Sanitizer.SanitizeProducts | src/transform.py:78-94 | the products table after its passes is `FilterMap(raw, CleanProduct)`; every cost is >= 0 and no category is "Null" |
| Sanitizer.UnparseableCostKept | src/transform.py:78-81 | a product with an ID and a missing or unparseable cost is kept with cost 0 |
| Sanitizer.MissingCategoryBecomesNan | src/transform.py:85-88 | a missing category becomes title("nan"), not "Outros" |
| Reconciler.MatchesOf | src/transform.py:102 | the matches of a key are rows of the right table with that key, and every right row with that key is among them |
| Reconciler.MatchesOfFilter | src/transform.py:102 | the matches of a key are exactly the pass keeping the right rows with that key, so (by `FilterMapIsSubsequence`) each matching row appears once, in the right table's order |
| Reconciler.LeftJoin | src/transform.py:102-106 | definition of `pd.merge(..., how='left')`: each left row in order, combined with each of its matches, or once with nothing; see the `LeftJoinRows`, `LeftJoinProvenance` and `LeftJoinCount` rows |
| Reconciler.MatchRows | src/transform.py:102 | the inner join loop pairs the left row with each of its matches, in the right table's order |
| Reconciler.LeftJoinRows | src/transform.py:102 | the nested loop yields exactly `LeftJoin` |
| Reconciler.LeftJoinAppend | src/transform.py:106 | joining a concatenation of left tables is the concatenation of the joins |
| Reconciler.LeftJoinProvenance | src/transform.py:102 | every joined row is a left row combined with a right row of its key, or with nothing when no right row has that key |
| Reconciler.JoinRowCount | src/transform.py:102 | a left row yields one row per match, or one row when it has none |
| Reconciler.LeftJoinCount | src/transform.py:102 | a left join yields `Fanout` rows, never fewer than its left table |
| Reconciler.SameKeyCount | src/transform.py:106 | left rows that share a key each yield the same number of rows |
| Reconciler.NoKeyNoMatches | src/transform.py:102 | a key that no right row has matches nothing |
| Reconciler.UniqueKeysAtMostOneMatch | src/transform.py:102 | with unique right keys every key has at most one match |
| Reconciler.JoinRowOne | src/transform.py:102 | a left row with at most one match yields exactly one row: itself with that match, or with nothing |
| Reconciler.LeftJoinOneToOne | src/transform.py:102 | with at most one match per left row, the join is `FirstMatches`: as long as the left table, row i being left row i with its match (or nothing) |
| Reconciler.FillDefaults | src/transform.py:111-118 | definition of the `fillna` calls on one joined row: each empty column gets its fixed default, including the name of a matched product and the e-mail of a matched customer; see the `ReconciledProductColumns` and `ReconciledCustomerColumns` rows |
| Reconciler.Reconcile | src/transform.py:102-118 | definition: the product join, the customer join, then `FillDefaults` on every row; see the `ReconcileTables`, `ReconcileCount` and `ReconciledRowProvenance` rows |
| Reconciler.ReconcileTables | src/transform.py:102-118 | the two left joins and the defaults produce `Reconcile(sales, products, customers)` |
| Reconciler.SaleFanout | src/transform.py:102-106 | every sale fans out to at least one row |
| Reconciler.ProductJoinRowsKeepSale | src/transform.py:102 | every row a sale contributes to the product join carries that sale |
| Reconciler.SaleBlockCount | src/transform.py:102-106 | the rows one sale yields through both joins are its product matches (or 1) times its customer matches (or 1) |
| Reconciler.JoinedCount | src/transform.py:102-106 | the two joins yield `ReconciledCount` rows, at least one per sale |
| Reconciler.ReconcileCount | src/transform.py:102-118 | the reconciled table has `ReconciledCount` rows, at least one per sale; no sale is lost |
| Reconciler.ProductJoinProvenance | src/transform.py:102 | a product-join row carries a sale of the table and either a product's columns for that sale's `ID_Produto` or empty product columns when no product has it |
| Reconciler.CustomerJoinProvenance | src/transform.py:106 | a customer-join row extends a product-join row with a customer's columns for its `ID_Cliente`, or with empty columns when no customer has it |
| Reconciler.ReconciledFrom | src/transform.py:111-118 | every reconciled row is a customer-join row with its defaults filled |
| Reconciler.ReconciledProductColumns | src/transform.py:102-117 | a reconciled row carries a sanitized sale, and the product columns of a product with its `ID_Produto` (an absent name becoming "Produto Desconhecido") or else "Produto Desconhecido", "Outros", 0 |
| Reconciler.ReconciledCustomerColumns | src/transform.py:106-114 | a reconciled row carries the customer columns of a customer with its `ID_Cliente` (an absent e-mail defaulted) or else "Desconhecido", "desconhecido@email.com", "Desconhecida", "XX" |
| Reconciler.ReconciledRowProvenance | src/transform.py:102-118 | every reconciled row carries a sanitized sale. Product columns: those of a product with the sale's ID (an absent name becoming "Produto Desconhecido"), else "Produto Desconhecido", "Outros", 0. Customer columns: those of a customer with the sale's ID (an absent e-mail defaulted), else "Desconhecido", "desconhecido@email.com", "Desconhecida", "XX" |
| Reconciler.ReconcileOneToOne | src/transform.py:102-118 | with unique product and customer IDs there is exactly one row per sale, in order, joined with its first product and customer match |
| Metrics.Derive | src/transform.py:124-131 | definition of the derived columns of one row; see the `WithMetrics` and `DerivedColumns` rows |
| Metrics.WithMetrics | src/transform.py:124-131 | one fact per reconciled row: fact i keeps row i, its value is quantity × price, its cost quantity × unit cost, its margin value − cost, and its year, month and day are the sale date's |
| Metrics.DerivedColumns | src/transform.py:124-131 | value = quantity × price > 0; cost = quantity × unit cost >= 0; margin = value − cost = quantity × (price − unit cost); with unit cost 0 the margin is the whole value; year, month and day come from the sale's date |
| Metrics.FactBounds | src/transform.py:124-126 | a fact derived from a row with positive price and quantity and non-negative cost has value > 0, cost >= 0 and margin = value − cost |
| Aggregator.GroupSum | src/transform.py:138 | definition of `groupby(key)[value].sum()` on (key, value) pairs; see the `GroupSumSpec` row |
| Aggregator.IndexOf | src/transform.py:138 | the position found holds the key, and -1 means no entry has the key |
| Aggregator.AccumulateSpec | src/transform.py:138 | adding a value to a group table keeps keys distinct, adds the value to the total and to the key's entry (a new last entry if the key was absent), and leaves the other entries unchanged |
| Aggregator.GroupSumSpec | src/transform.py:138 | `groupby(key).sum()` has distinct keys, exactly the keys of the input, each entry holding the sum of its key's values, and the input's total |
| Aggregator.GroupEntry | src/transform.py:138 | every entry of a grouped sum holds the sum of its key's values |
| Aggregator.SortDesc | src/transform.py:138 | definition of `sort_values(ascending=False)`, by insertion; see the `SortDescSpec` row |
| Aggregator.InsertDescSpec | src/transform.py:138 | inserting into a non-increasing list keeps it non-increasing and adds one entry |
| Aggregator.InsertDescKeeps | src/transform.py:138 | insertion adds exactly the inserted entry (as a multiset) and its value to the total |
| Aggregator.InsertDescKeys | src/transform.py:138 | after insertion the keys are the old keys plus the inserted one |
| Aggregator.InsertDescDistinct | src/transform.py:138 | inserting a new key into a list of distinct keys keeps the keys distinct |
| Aggregator.SortDescDistinct | src/transform.py:138 | sorting by value keeps keys distinct |
| Aggregator.SortDescSpec | src/transform.py:138 | `sort_values(ascending=False)` yields a non-increasing permutation with the same total |
| Aggregator.SortByMonth | src/transform.py:148 | definition of the ascending (year, month) key order of the grouped index, by insertion; see the `SortByMonthSpec` row |
| Aggregator.InsertByMonthSpec | src/transform.py:148 | inserting a new (year, month) key into a strictly ascending list keeps it strictly ascending |
| Aggregator.InsertByMonthKeeps | src/transform.py:148 | insertion by month adds exactly the inserted entry (as a multiset) and its value to the total |
| Aggregator.SortByMonthTotal | src/transform.py:148 | ordering by (year, month) keeps the total |
| Aggregator.SortByMonthSpec | src/transform.py:148 | with distinct keys, ordering by (year, month) yields a strictly ascending permutation |
| Aggregator.ProjectTotal | src/transform.py:138 | the projected values add up to the table's revenue |
| Aggregator.ProjectKeys | src/transform.py:138 | the projected keys are exactly the rows' keys |
| Aggregator.SortedGroupsSpec | src/transform.py:138 | a grouped sum sorted by value is non-increasing, with distinct keys, one per input key, each holding its key's sum, and the input's total |
| Aggregator.PermutedGroups | src/transform.py:138-148 | any reordering of a grouped sum has exactly the input's keys, each entry holding its key's sum |
| Aggregator.SortedMonthsSpec | src/transform.py:148 | a grouped sum over (year, month) keys, ordered by key, is strictly ascending, a reordering of the grouped sum, with the input's total |
| Aggregator.RevenueByCategory | src/transform.py:138 | definition: revenue grouped by `Categoria`, sorted largest first; see the `RevenueByCategorySpec` row |
| Aggregator.TopCustomers | src/transform.py:143 | definition: revenue grouped by `Nome_Cliente`, the first `TopCount` (5) of it sorted largest first; see the `TopCustomersOrder` and `TopCustomersSpec` rows |
| Aggregator.MonthlyRevenue | src/transform.py:148 | definition: revenue grouped by (`Ano`, `Mes`) in key order; see the `MonthlyRevenueSpec` row |
| Aggregator.RevenueByCategorySpec | src/transform.py:138 | revenue by category is non-increasing, has one entry per category in the table and no other, each holding that category's revenue, and adds up to the table's revenue |
| Aggregator.TopCustomersOrder | src/transform.py:143 | the top list has min(5, number of names) entries, distinct names, non-increasing |
| Aggregator.TopCustomersSpec | src/transform.py:143 | each top entry is a customer name with its revenue, and no name left out has more revenue than any kept |
| Aggregator.MonthlyRevenueSpec | src/transform.py:148 | monthly revenue is strictly ascending by (year, month), has one entry per month in the table and no other, each holding that month's revenue, and adds up to the table's revenue |
| Transform.Transformed | src/transform.py:28-131 | definition of the final table: the three sanitized tables reconciled, with the derived columns; see the `TransformData`, `TransformedFacts` and `TransformedCount` rows |
| Transform.TransformData | src/transform.py:8-150 | the stages in the source's order produce `Transformed(...)` and its three summaries, and every fact has price > 0, quantity > 0, unit cost >= 0, value > 0, cost >= 0 and margin = value − cost |
| Transform.SanitizedSalePositive | src/transform.py:43-50 | a sanitized sale has a positive price and quantity |
| Transform.SanitizedProductCost | src/transform.py:81 | a sanitized product has a non-negative cost |
| Transform.ReconciledRowBounds | src/transform.py:102-118 | a reconciled row of sanitized tables has a positive price and quantity and a non-negative unit cost |
| Transform.TransformedRowBounds | src/transform.py:124-131 | each final row is derived from a reconciled row with those bounds |
| Transform.TransformedFacts | src/transform.py:124-131 | every final row has value > 0, cost >= 0 and margin = value − cost, besides the sale and cost bounds |
| Transform.TransformedCount | src/transform.py:102-118 | the final table has one row per product match (or none) × customer match (or none) of each sanitized sale, so at least one row per sale |
| Transform.UnknownProductRow | src/transform.py:111-126 | a row whose product ID is not in the products table reads "Produto Desconhecido", "Outros", unit cost 0, total cost 0, and all its value is margin |
| Transform.TransformedOneToOne | src/transform.py:102-118 | with unique product and customer IDs the final table has exactly one row per sanitized sale, in order |
| Transform.InvalidDateScenario | src/transform.py:28-32 | a sale dated "2024-13-40" (unparseable) yields no row at all |
| Transform.ReconcileSingle | src/transform.py:102-118 | one sale with the one product and the one customer it names reconciles to exactly one row joining all three |
| Transform.JoaoSilvaRow | src/transform.py:102-131 | 3 units at 10.5 of a product costing 5 give value 31.5, cost 15 and margin 16.5 for customer "João Silva" |
| Transform.JoaoSilvaScenario | src/transform.py:28-131 | the raw sale ("2024-01-05", "10,50", "3", P1, C1), with product P1 at "5.00" and customer C1 "joão silva", gives exactly one row with price 10.5, value 31.5, cost 15, margin 16.5, name "João Silva" and date 2024-01-05 |
| Transform.CategoryScenario | src/transform.py:138 | rows ("Eletrônicos", 100) and ("Outros", 50) give revenue by category [("Eletrônicos", 100), ("Outros", 50)] |

## Left out

- Reading the CSV files (`src/extract.py`) and writing the result (`src/load.py`) are not modelled. Neither are the progress messages (`print`) or the `__main__` driver of `src/transform.py`.
- `pd.to_datetime`, `pd.to_numeric`, `str.title` and `str.upper` are parameters (the `Library` value), not implementations. Every property holds for any per-value behaviour of them; the scenarios state what they assume.
- Sanitizer.ParseDate and Sanitizer.CleanSale parse each `Data` cell on its own. That is the behaviour of pandas 1.x, or of any column whose dates all share one format. Under pandas 2.x, `pd.to_datetime` without `format` (line 28) infers one format from the first non-null date. With `errors='coerce'`, a date in any other format becomes NaT and its sale is dropped at line 32. Whether a sale is kept can therefore depend on another row's date, and the model does not capture that.
- Floating point is replaced by exact real arithmetic. Rounding of `Valor_Total_Venda` and the margins is not modelled.
- Column dtypes are not modelled. IDs are text on both sides of each join, and the model does not cover an integer ID matching nothing against a text ID.
- The chained `df[col].fillna(..., inplace=True)` and `replace(..., inplace=True)` calls are modelled as taking effect. That is the behaviour without pandas copy-on-write; under copy-on-write they would do nothing.
- `pd.merge` suffixing of clashing non-key column names is not modelled: the joined tables are taken to share no column but the key.
- Aggregator.RevenueByCategorySpec: the order of categories with equal revenue is not stated, because `sort_values` uses an unstable sort. The model fixes one order; the contract states only non-increasing order.
- Aggregator.TopCustomersSpec: which of several names tied at the fifth place `nlargest` keeps is not stated. The contract states only that no name left out has more revenue than one kept.
- Aggregator.MonthlyRevenueSpec: the result is a list of ((year, month), revenue) pairs, not a two-level index.
- The intermediate order of `groupby` groups (sorted by key) is not modelled. The grouped sum keeps keys in first-appearance order, which only the unordered tie cases above could observe.
- The caller's DataFrames are partly changed in place, and the model, which maps input tables to new tables, does not show it. Line 28 rewrites the argument's `Data` column before line 32 rebinds `df_vendas`; lines 61-72 rewrite the argument `df_clientes` and drop its rows in place (`dropna(..., inplace=True)`); lines 78-79 rewrite and fill the argument's `Custo_Unitario` before line 81 rebinds `df_produtos`. The model describes only the tables `transform_data` returns and the summaries.
- Customer e-mails are not cleaned: the source leaves them as read.
