/**
 * The metric calculator: the derived columns `Valor_Total_Venda`,
 * `Custo_Total_Venda`, `Margem_Lucro`, `Ano`, `Mes` and `Dia` of each
 * reconciled row.
 */
module Metrics {
  import opened Tables
  import opened Reconciler

  /** A reconciled row with its derived columns. */
  datatype Fact = Fact(rec: Record, totalValue: real, totalCost: real, margin: real, year: int, month: int, day: int)

  /** Lines 124-131: the derived columns of one row. */
  function Derive(r: Record): (res: Fact) {
    var value := r.sale.quantity * r.sale.price;
    var cost := r.sale.quantity * r.cost;
    Fact(r, value, cost, value - cost, r.sale.date.year, r.sale.date.month, r.sale.date.day)
  }

  /**
   * The reconciled table with the derived columns added to every row: row i
   * keeps reconciled row i, its value is quantity times price, its cost is
   * quantity times unit cost, its margin is value minus cost, and its year,
   * month and day are those of the sale's date.
   */
  function WithMetrics(rows: seq<Record>): (facts: seq<Fact>)
    ensures |facts| == |rows|
    ensures forall i :: 0 <= i < |rows| ==> facts[i] == Derive(rows[i])
    ensures forall i :: 0 <= i < |rows| ==> facts[i].rec == rows[i]
    ensures forall i :: 0 <= i < |rows| ==>
              facts[i].totalValue == rows[i].sale.quantity * rows[i].sale.price &&
              facts[i].totalCost == rows[i].sale.quantity * rows[i].cost &&
              facts[i].margin == facts[i].totalValue - facts[i].totalCost
    ensures forall i :: 0 <= i < |rows| ==>
              (facts[i].year, facts[i].month, facts[i].day) == (rows[i].sale.date.year, rows[i].sale.date.month, rows[i].sale.date.day)
  {
    seq(|rows|, i requires 0 <= i < |rows| => Derive(rows[i]))
  }

  /**
   * The derived columns of a row whose price and quantity are positive and
   * whose cost is not negative: the sale's value is positive, its cost is not
   * negative, and the margin is the quantity times the unit margin; a row of
   * an unknown product (cost 0) has all of its value as margin.
   */
  lemma DerivedColumns(r: Record)
    requires r.sale.price > 0.0 && r.sale.quantity > 0.0 && r.cost >= 0.0
    ensures Derive(r).rec == r
    ensures Derive(r).totalValue == r.sale.quantity * r.sale.price > 0.0
    ensures Derive(r).totalCost == r.sale.quantity * r.cost >= 0.0
    ensures Derive(r).margin == Derive(r).totalValue - Derive(r).totalCost == r.sale.quantity * (r.sale.price - r.cost)
    ensures r.cost == 0.0 ==> Derive(r).margin == Derive(r).totalValue
    ensures (Derive(r).year, Derive(r).month, Derive(r).day) == (r.sale.date.year, r.sale.date.month, r.sale.date.day)
  {
  }

  /**
   * A fact derived from a row with a positive price and quantity and a cost
   * that is not negative has a positive value, a total cost that is not
   * negative, and a margin equal to value minus cost.
   */
  lemma FactBounds(f: Fact)
    requires f == Derive(f.rec)
    requires f.rec.sale.price > 0.0 && f.rec.sale.quantity > 0.0 && f.rec.cost >= 0.0
    ensures f.totalValue > 0.0 && f.totalCost >= 0.0 && f.margin == f.totalValue - f.totalCost
  {
    DerivedColumns(f.rec);
  }
}
