/**
 * The data model of the e-commerce ETL transform: raw and sanitized rows of the
 * sales, customers and products tables, and the foreign library functions
 * (pandas' parsers, Python's case maps) that the transform calls.
 *
 * A pandas column changes type as the transform rewrites it (text, then a
 * number or a timestamp), so each row datatype takes one type parameter per
 * column group that a rule rewrites; a raw row has every parameter set to
 * `Cell`, a sanitized row has them set to the parsed types.
 */
module Tables {
  import opened Wrappers

  /** A cell as read from the CSV file: absent (NaN) or text. */
  type Cell = Option<string>

  /** A calendar date, as the components of a pandas Timestamp. */
  datatype Date = Date(year: int, month: int, day: int)

  /**
   * Library behaviour the transform relies on but does not define.
   * `toDatetime` is `pd.to_datetime(errors='coerce')` on one value (None = NaT);
   * `toNumeric` is `pd.to_numeric(errors='coerce')` on one value (None = NaN);
   * `title` and `upper` are Python's `str.title` and `str.upper`.
   */
  datatype Library = Library(
    toDatetime: string -> Option<Date>,
    toNumeric: string -> Option<real>,
    title: string -> string,
    upper: string -> string)

  /** `.astype(str)` on one cell: a missing value becomes the text "nan". */
  function AsStr(c: Cell): (r: string) {
    match c
    case Some(t) => t
    case None => "nan"
  }

  /** A row of the sales table (`Data`, `ID_Produto`, `ID_Cliente`, `Preco_Unitario`, `Quantidade`). */
  datatype SaleRow<D, I, N, Q> = SaleRow(date: D, productId: I, customerId: I, price: N, quantity: Q)

  type RawSale = SaleRow<Cell, Cell, Cell, Cell>
  type Sale = SaleRow<Date, string, real, real>

  /** A row of the customers table (`ID_Cliente`, `Nome_Cliente`, `Cidade`, `Estado`, `Email`). */
  datatype CustomerRow<I, N, L> = CustomerRow(id: I, name: N, city: L, state: L, email: Cell)

  type RawCustomer = CustomerRow<Cell, Cell, Cell>
  type Customer = CustomerRow<string, string, string>

  /** A row of the products table (`ID_Produto`, `Nome_Produto`, `Categoria`, `Custo_Unitario`). */
  datatype ProductRow<I, K, C> = ProductRow(id: I, name: Cell, category: K, cost: C)

  type RawProduct = ProductRow<Cell, Cell, Cell>
  type Product = ProductRow<string, string, real>
}
