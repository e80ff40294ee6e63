/**
 * The reconciler: the sanitized sales are left-joined with the products on
 * `ID_Produto`, the result is left-joined with the customers on `ID_Cliente`,
 * and the columns a join left empty are filled with fixed defaults.
 *
 * A left join emits, for each left row in order, one row per matching right
 * row (in the right table's order), or one row paired with nothing when no
 * right row matches; duplicate right keys therefore fan a left row out.
 */
module Reconciler {
  import opened Wrappers
  import opened Tables
  import opened Passes

  // ------------------------------------------------------ generic left join

  /** The two join keys and how a left row is combined with a right row or with nothing. */
  datatype JoinOn<-L, -R, K, O> = JoinOn(leftKey: L -> K, rightKey: R -> K, combine: (L, Option<R>) -> O)

  /** The rows of `right` whose key is `k`, in their order. */
  function MatchesOf<R, K(==)>(rightKey: R -> K, k: K, right: seq<R>): (ms: seq<R>)
    ensures |ms| <= |right|
    ensures forall i :: 0 <= i < |ms| ==> ms[i] in right && rightKey(ms[i]) == k
    ensures forall i :: 0 <= i < |right| && rightKey(right[i]) == k ==> right[i] in ms
  {
    if right == [] then []
    else
      var init := right[..|right| - 1];
      assert right == init + [right[|right| - 1]];
      MatchesOf(rightKey, k, init) + (if rightKey(right[|right| - 1]) == k then [right[|right| - 1]] else [])
  }

  /** Keeps the rows whose key is `k`, unchanged. */
  function KeyIs<R, K(==)>(rightKey: R -> K, k: K): (rule: R -> Option<R>) {
    r => if rightKey(r) == k then Some(r) else None
  }

  /**
   * The matches of a key are exactly the pass that keeps the right rows with
   * that key: by `FilterMapIsSubsequence` they come in the right table's order,
   * each matching row exactly once.
   */
  lemma {:induction false} MatchesOfFilter<R, K>(rightKey: R -> K, k: K, right: seq<R>)
    ensures MatchesOf(rightKey, k, right) == FilterMap(right, KeyIs(rightKey, k))
  {
    if right != [] {
      MatchesOfFilter(rightKey, k, right[..|right| - 1]);
    }
  }

  /** `l` combined with each of `ms`, in order. */
  function Paired<L, R, K, O>(on: JoinOn<L, R, K, O>, l: L, ms: seq<R>): (r: seq<O>) {
    seq(|ms|, i requires 0 <= i < |ms| => on.combine(l, Some(ms[i])))
  }

  /** The rows one left row contributes to a left join. */
  function JoinRow<L, R, K(==), O>(on: JoinOn<L, R, K, O>, l: L, right: seq<R>): (r: seq<O>) {
    var ms := MatchesOf(on.rightKey, on.leftKey(l), right);
    if ms == [] then [on.combine(l, None)] else Paired(on, l, ms)
  }

  /** `pd.merge(left, right, how='left')` on the keys of `on`. */
  function LeftJoin<L, R, K(==), O>(on: JoinOn<L, R, K, O>, left: seq<L>, right: seq<R>): (r: seq<O>) {
    if left == [] then []
    else LeftJoin(on, left[..|left| - 1], right) + JoinRow(on, left[|left| - 1], right)
  }

  /** The number of rows a left join yields: each left row counts its matches, or 1 without one. */
  function Fanout<L, R, K(==), O>(on: JoinOn<L, R, K, O>, left: seq<L>, right: seq<R>): (r: nat) {
    if left == [] then 0
    else
      var n := |MatchesOf(on.rightKey, on.leftKey(left[|left| - 1]), right)|;
      Fanout(on, left[..|left| - 1], right) + (if n == 0 then 1 else n)
  }

  /** The first right row whose key is `k`, if any. */
  function FirstMatch<R, K(==)>(rightKey: R -> K, k: K, right: seq<R>): (r: Option<R>) {
    var ms := MatchesOf(rightKey, k, right);
    if ms == [] then None else Some(ms[0])
  }

  /** No two rows of `right` share a key. */
  ghost predicate UniqueKeys<R, K>(rightKey: R -> K, right: seq<R>) {
    forall i, j :: 0 <= i < j < |right| ==> rightKey(right[i]) != rightKey(right[j])
  }

  /** The inner loop of a left join: `l` combined with each right row that has its key. */
  method MatchRows<L, R, K(==), O>(on: JoinOn<L, R, K, O>, l: L, right: seq<R>) returns (block: seq<O>)
    ensures block == Paired(on, l, MatchesOf(on.rightKey, on.leftKey(l), right))
  {
    block := [];
    var j := 0;
    while j < |right|
      invariant 0 <= j <= |right|
      invariant block == Paired(on, l, MatchesOf(on.rightKey, on.leftKey(l), right[..j]))
    {
      assert right[..j + 1][..j] == right[..j];
      var ms := MatchesOf(on.rightKey, on.leftKey(l), right[..j]);
      if on.leftKey(l) == on.rightKey(right[j]) {
        assert Paired(on, l, ms + [right[j]]) == Paired(on, l, ms) + [on.combine(l, Some(right[j]))];
        block := block + [on.combine(l, Some(right[j]))];
      }
      j := j + 1;
    }
    assert right[..|right|] == right;
  }

  /** The nested loop that performs a left join. */
  method LeftJoinRows<L, R, K(==), O>(on: JoinOn<L, R, K, O>, left: seq<L>, right: seq<R>) returns (out: seq<O>)
    ensures out == LeftJoin(on, left, right)
  {
    out := [];
    var i := 0;
    while i < |left|
      invariant 0 <= i <= |left|
      invariant out == LeftJoin(on, left[..i], right)
    {
      var block := MatchRows(on, left[i], right);
      if block == [] {
        block := [on.combine(left[i], None)];
      }
      assert left[..i + 1][..i] == left[..i];
      out := out + block;
      i := i + 1;
    }
    assert left[..|left|] == left;
  }

  /** Joining a concatenation joins each part. */
  lemma {:induction false} LeftJoinAppend<L, R, K, O>(on: JoinOn<L, R, K, O>, a: seq<L>, b: seq<L>, right: seq<R>)
    ensures LeftJoin(on, a + b, right) == LeftJoin(on, a, right) + LeftJoin(on, b, right)
  {
    if b != [] {
      var b' := b[..|b| - 1];
      assert (a + b)[..|a + b| - 1] == a + b';
      LeftJoinAppend(on, a, b', right);
    } else {
      assert a + b == a;
    }
  }

  /**
   * `partner` is what a left join pairs `l` with: a right row with `l`'s key,
   * or nothing when no right row has that key.
   */
  ghost predicate Partner<L, R, K, O>(on: JoinOn<L, R, K, O>, right: seq<R>, l: L, partner: Option<R>) {
    match partner
    case Some(r) => r in right && on.rightKey(r) == on.leftKey(l)
    case None => forall r :: r in right ==> on.rightKey(r) != on.leftKey(l)
  }

  /** Each output row is a left row combined with a partner of it. */
  lemma {:induction false} LeftJoinProvenance<L, R, K, O>(on: JoinOn<L, R, K, O>, left: seq<L>, right: seq<R>, o: O)
    requires o in LeftJoin(on, left, right)
    ensures exists l, partner :: l in left && Partner(on, right, l, partner) && o == on.combine(l, partner)
  {
    var init, l := left[..|left| - 1], left[|left| - 1];
    if o in LeftJoin(on, init, right) {
      LeftJoinProvenance(on, init, right, o);
      var l', partner :| l' in init && Partner(on, right, l', partner) && o == on.combine(l', partner);
      assert l' in left;
    } else {
      var ms := MatchesOf(on.rightKey, on.leftKey(l), right);
      assert l in left;
      if ms != [] {
        var i :| 0 <= i < |ms| && o == on.combine(l, Some(ms[i]));
        assert Partner(on, right, l, Some(ms[i]));
      } else {
        assert Partner(on, right, l, None);
      }
    }
  }

  /** A left row contributes its number of matches, or 1 when it has none. */
  lemma JoinRowCount<L, R, K, O>(on: JoinOn<L, R, K, O>, l: L, right: seq<R>)
    ensures var n := |MatchesOf(on.rightKey, on.leftKey(l), right)|;
      |JoinRow(on, l, right)| == if n == 0 then 1 else n
  {
  }

  /** A left join yields exactly `Fanout` rows. */
  lemma {:induction false} LeftJoinCount<L, R, K, O>(on: JoinOn<L, R, K, O>, left: seq<L>, right: seq<R>)
    ensures |LeftJoin(on, left, right)| == Fanout(on, left, right)
    ensures |LeftJoin(on, left, right)| >= |left|
  {
    if left != [] {
      LeftJoinCount(on, left[..|left| - 1], right);
    }
  }

  /** When all left rows share one key, each contributes the same number of rows. */
  lemma {:induction false} SameKeyCount<L, R, K, O>(on: JoinOn<L, R, K, O>, left: seq<L>, right: seq<R>, k: K, m: nat)
    requires forall i :: 0 <= i < |left| ==> on.leftKey(left[i]) == k
    requires m == if |MatchesOf(on.rightKey, k, right)| == 0 then 1 else |MatchesOf(on.rightKey, k, right)|
    ensures |LeftJoin(on, left, right)| == |left| * m
  {
    if left != [] {
      var init, l := left[..|left| - 1], left[|left| - 1];
      forall i | 0 <= i < |init| ensures on.leftKey(init[i]) == k {
        assert init[i] == left[i];
      }
      SameKeyCount(on, init, right, k, m);
      JoinRowCount(on, l, right);
      var n := |init|;
      assert |LeftJoin(on, left, right)| == n * m + |JoinRow(on, l, right)|;
      MultiplySucc(n, m);
    }
  }

  /** Kept apart so that the nonlinear step is proved outside the join's context. */
  lemma MultiplySucc(n: nat, m: nat)
    ensures n * m + m == (n + 1) * m
  {
  }

  /** A key no right row has matches nothing. */
  lemma {:induction false} NoKeyNoMatches<R, K>(rightKey: R -> K, k: K, right: seq<R>)
    requires forall i :: 0 <= i < |right| ==> rightKey(right[i]) != k
    ensures MatchesOf(rightKey, k, right) == []
  {
    if right != [] {
      var init := right[..|right| - 1];
      forall i | 0 <= i < |init| ensures rightKey(init[i]) != k {
        assert init[i] == right[i];
      }
      NoKeyNoMatches(rightKey, k, init);
    }
  }

  /** Unique right keys give every key at most one match. */
  lemma {:induction false} UniqueKeysAtMostOneMatch<R, K>(rightKey: R -> K, right: seq<R>, k: K)
    requires UniqueKeys(rightKey, right)
    ensures |MatchesOf(rightKey, k, right)| <= 1
  {
    if right != [] {
      var init, last := right[..|right| - 1], right[|right| - 1];
      assert UniqueKeys(rightKey, init) by {
        forall i, j | 0 <= i < j < |init| ensures rightKey(init[i]) != rightKey(init[j]) {
          assert init[i] == right[i] && init[j] == right[j];
        }
      }
      UniqueKeysAtMostOneMatch(rightKey, init, k);
      if rightKey(last) == k {
        forall i | 0 <= i < |init| ensures rightKey(init[i]) != k {
          assert init[i] == right[i];
        }
        NoKeyNoMatches(rightKey, k, init);
      }
    }
  }

  /** A left row with at most one match yields one row: itself combined with that match, or with nothing. */
  lemma JoinRowOne<L, R, K, O>(on: JoinOn<L, R, K, O>, l: L, right: seq<R>)
    requires |MatchesOf(on.rightKey, on.leftKey(l), right)| <= 1
    ensures JoinRow(on, l, right) == [on.combine(l, FirstMatch(on.rightKey, on.leftKey(l), right))]
  {
  }

  /** Each left row combined with its first match, or with nothing. */
  function FirstMatches<L, R, K(==), O>(on: JoinOn<L, R, K, O>, left: seq<L>, right: seq<R>): (out: seq<O>) {
    seq(|left|, i requires 0 <= i < |left| => on.combine(left[i], FirstMatch(on.rightKey, on.leftKey(left[i]), right)))
  }

  lemma FirstMatchesSnoc<L, R, K, O>(on: JoinOn<L, R, K, O>, left: seq<L>, right: seq<R>)
    requires left != []
    ensures FirstMatches(on, left, right) ==
            FirstMatches(on, left[..|left| - 1], right) +
            [on.combine(left[|left| - 1], FirstMatch(on.rightKey, on.leftKey(left[|left| - 1]), right))]
  {
    var init := left[..|left| - 1];
    forall i | 0 <= i < |init| ensures init[i] == left[i] { }
  }

  /**
   * With at most one match per left row, a left join keeps the left table's
   * length and its i-th row is the i-th left row combined with its match.
   */
  lemma {:induction false} LeftJoinOneToOne<L, R, K, O>(on: JoinOn<L, R, K, O>, left: seq<L>, right: seq<R>)
    requires forall i :: 0 <= i < |left| ==> |MatchesOf(on.rightKey, on.leftKey(left[i]), right)| <= 1
    ensures LeftJoin(on, left, right) == FirstMatches(on, left, right)
  {
    if left != [] {
      var init, l := left[..|left| - 1], left[|left| - 1];
      forall i | 0 <= i < |init| ensures |MatchesOf(on.rightKey, on.leftKey(init[i]), right)| <= 1 {
        assert init[i] == left[i];
      }
      LeftJoinOneToOne(on, init, right);
      JoinRowOne(on, l, right);
      FirstMatchesSnoc(on, left, right);
    }
  }

  // -------------------------------------------------- the transform's joins

  /** A sale with the product columns of its match (absent when unmatched). */
  datatype SaleProduct = SaleProduct(sale: Sale, productName: Cell, category: Option<string>, cost: Option<real>)

  /** A sale with the product and customer columns of its matches. */
  datatype Merged = Merged(
    sale: Sale, productName: Cell, category: Option<string>, cost: Option<real>,
    customerName: Option<string>, email: Cell, city: Option<string>, state: Option<string>)

  /** A reconciled row: every column filled. */
  datatype Record = Record(
    sale: Sale, productName: string, category: string, cost: real,
    customerName: string, email: string, city: string, state: string)

  function SaleProductId(s: Sale): (r: string) { s.productId }
  function ProductId(p: Product): (r: string) { p.id }
  function SaleCustomerId(sp: SaleProduct): (r: string) { sp.sale.customerId }
  function CustomerId(c: Customer): (r: string) { c.id }

  function AttachProduct(s: Sale, p: Option<Product>): (r: SaleProduct) {
    match p
    case None => SaleProduct(s, None, None, None)
    case Some(p) => SaleProduct(s, p.name, Some(p.category), Some(p.cost))
  }

  function AttachCustomer(sp: SaleProduct, c: Option<Customer>): (r: Merged) {
    match c
    case None => Merged(sp.sale, sp.productName, sp.category, sp.cost, None, None, None, None)
    case Some(c) => Merged(sp.sale, sp.productName, sp.category, sp.cost, Some(c.name), c.email, Some(c.city), Some(c.state))
  }

  /** Line 102: sales left-joined with products on `ID_Produto`. */
  function ProductJoin(): (r: JoinOn<Sale, Product, string, SaleProduct>) {
    JoinOn(SaleProductId, ProductId, AttachProduct)
  }

  /** Line 106: that result left-joined with customers on `ID_Cliente`. */
  function CustomerJoin(): (r: JoinOn<SaleProduct, Customer, string, Merged>) {
    JoinOn(SaleCustomerId, CustomerId, AttachCustomer)
  }

  /** Lines 111-118: the fixed defaults for columns a join left empty. */
  function FillDefaults(m: Merged): (r: Record) {
    Record(m.sale,
           m.productName.GetOr("Produto Desconhecido"), m.category.GetOr("Outros"), m.cost.GetOr(0.0),
           m.customerName.GetOr("Desconhecido"), m.email.GetOr("desconhecido@email.com"),
           m.city.GetOr("Desconhecida"), m.state.GetOr("XX"))
  }

  function FillRule(m: Merged): (r: Option<Record>) { Some(FillDefaults(m)) }

  /** The reconciled table. */
  function Reconcile(sales: seq<Sale>, products: seq<Product>, customers: seq<Customer>): (r: seq<Record>) {
    FilterMap(LeftJoin(CustomerJoin(), LeftJoin(ProductJoin(), sales, products), customers), FillRule)
  }

  /** The reconciled row of a sale whose product and customer matches (if any) are `p` and `c`. */
  function Reconciled(s: Sale, p: Option<Product>, c: Option<Customer>): (r: Record) {
    FillDefaults(AttachCustomer(AttachProduct(s, p), c))
  }

  /** Lines 102-118: the two left joins, then the defaults. */
  method ReconcileTables(sales: seq<Sale>, products: seq<Product>, customers: seq<Customer>) returns (rows: seq<Record>)
    ensures rows == Reconcile(sales, products, customers)
  {
    var withProducts := LeftJoinRows(ProductJoin(), sales, products);
    var merged := LeftJoinRows(CustomerJoin(), withProducts, customers);
    rows := ApplyPass(merged, FillRule);
  }

  /** The number of rows a sale fans out to: its product matches times its customer matches, each at least 1. */
  function SaleFanout(s: Sale, products: seq<Product>, customers: seq<Customer>): (n: nat)
    ensures n >= 1
  {
    var p := |MatchesOf(ProductId, s.productId, products)|;
    var c := |MatchesOf(CustomerId, s.customerId, customers)|;
    (if p == 0 then 1 else p) * (if c == 0 then 1 else c)
  }

  function ReconciledCount(sales: seq<Sale>, products: seq<Product>, customers: seq<Customer>): (r: nat) {
    if sales == [] then 0
    else ReconciledCount(sales[..|sales| - 1], products, customers) + SaleFanout(sales[|sales| - 1], products, customers)
  }

  /** The rows a sale contributes to the product join all carry that sale. */
  lemma ProductJoinRowsKeepSale(s: Sale, products: seq<Product>)
    ensures forall sp :: sp in JoinRow(ProductJoin(), s, products) ==> sp.sale == s
  {
    var ms := MatchesOf(ProductId, s.productId, products);
    forall sp | sp in JoinRow(ProductJoin(), s, products) ensures sp.sale == s {
      if ms != [] {
        var i :| 0 <= i < |ms| && sp == AttachProduct(s, Some(ms[i]));
      }
    }
  }

  /** The rows one sale yields through both joins. */
  lemma SaleBlockCount(s: Sale, products: seq<Product>, customers: seq<Customer>)
    ensures |LeftJoin(CustomerJoin(), JoinRow(ProductJoin(), s, products), customers)| == SaleFanout(s, products, customers)
  {
    var block := JoinRow(ProductJoin(), s, products);
    ProductJoinRowsKeepSale(s, products);
    JoinRowCount(ProductJoin(), s, products);
    var c := |MatchesOf(CustomerId, s.customerId, customers)|;
    SameKeyCount(CustomerJoin(), block, customers, s.customerId, if c == 0 then 1 else c);
  }

  /** The two joins yield `ReconciledCount` rows, at least one per sale. */
  lemma {:induction false} JoinedCount(sales: seq<Sale>, products: seq<Product>, customers: seq<Customer>)
    ensures |LeftJoin(CustomerJoin(), LeftJoin(ProductJoin(), sales, products), customers)|
         == ReconciledCount(sales, products, customers)
    ensures ReconciledCount(sales, products, customers) >= |sales|
  {
    if sales != [] {
      var init, s := sales[..|sales| - 1], sales[|sales| - 1];
      JoinedCount(init, products, customers);
      var before := LeftJoin(ProductJoin(), init, products);
      var block := JoinRow(ProductJoin(), s, products);
      assert LeftJoin(ProductJoin(), sales, products) == before + block;
      LeftJoinAppend(CustomerJoin(), before, block, customers);
      SaleBlockCount(s, products, customers);
    }
  }

  /** The reconciled table has one row per (product match or none) x (customer match or none) of each sale. */
  lemma ReconcileCount(sales: seq<Sale>, products: seq<Product>, customers: seq<Customer>)
    ensures |Reconcile(sales, products, customers)| == ReconciledCount(sales, products, customers)
    ensures |Reconcile(sales, products, customers)| >= |sales|
  {
    var joined := LeftJoin(ProductJoin(), sales, products);
    var merged := LeftJoin(CustomerJoin(), joined, customers);
    FilterMapTotal(merged, FillRule);
    JoinedCount(sales, products, customers);
  }

  /** The product columns a row of the product join carries, and the sale it carries. */
  lemma ProductJoinProvenance(sales: seq<Sale>, products: seq<Product>, sp: SaleProduct)
    requires sp in LeftJoin(ProductJoin(), sales, products)
    ensures sp.sale in sales
    ensures (forall p :: p in products ==> p.id != sp.sale.productId) ==>
              sp.productName.None? && sp.category.None? && sp.cost.None?
    ensures (exists p :: p in products && p.id == sp.sale.productId) ==>
              exists p :: p in products && p.id == sp.sale.productId &&
                sp.productName == p.name && sp.category == Some(p.category) && sp.cost == Some(p.cost)
  {
    LeftJoinProvenance(ProductJoin(), sales, products, sp);
    var s, partner :| s in sales && Partner(ProductJoin(), products, s, partner) && sp == AttachProduct(s, partner);
  }

  /** The customer columns a row of the customer join carries, and the row of the product join it extends. */
  lemma CustomerJoinProvenance(joined: seq<SaleProduct>, customers: seq<Customer>, m: Merged)
    requires m in LeftJoin(CustomerJoin(), joined, customers)
    ensures SaleProduct(m.sale, m.productName, m.category, m.cost) in joined
    ensures (forall c :: c in customers ==> c.id != m.sale.customerId) ==>
              m.customerName.None? && m.email.None? && m.city.None? && m.state.None?
    ensures (exists c :: c in customers && c.id == m.sale.customerId) ==>
              exists c :: c in customers && c.id == m.sale.customerId &&
                m.customerName == Some(c.name) && m.email == c.email && m.city == Some(c.city) && m.state == Some(c.state)
  {
    LeftJoinProvenance(CustomerJoin(), joined, customers, m);
    var sp, partner :| sp in joined && Partner(CustomerJoin(), customers, sp, partner) && m == AttachCustomer(sp, partner);
    assert sp == SaleProduct(m.sale, m.productName, m.category, m.cost);
  }

  /** A reconciled row is a row of the customer join with its defaults filled. */
  lemma ReconciledFrom(sales: seq<Sale>, products: seq<Product>, customers: seq<Customer>, rec: Record)
    requires rec in Reconcile(sales, products, customers)
    ensures exists m :: m in LeftJoin(CustomerJoin(), LeftJoin(ProductJoin(), sales, products), customers) &&
                        rec == FillDefaults(m)
  {
    var merged := LeftJoin(CustomerJoin(), LeftJoin(ProductJoin(), sales, products), customers);
    FilterMapFrom(merged, FillRule, rec);
  }

  /**
   * The sale and product columns of a reconciled row: a sanitized sale, and
   * the columns of a product with the sale's `ID_Produto` (an absent product
   * name becoming "Produto Desconhecido") or, when no product has that ID,
   * "Produto Desconhecido", "Outros" and cost 0.
   */
  lemma ReconciledProductColumns(sales: seq<Sale>, products: seq<Product>, customers: seq<Customer>, rec: Record)
    requires rec in Reconcile(sales, products, customers)
    ensures rec.sale in sales
    ensures (forall p :: p in products ==> p.id != rec.sale.productId) ==>
              rec.productName == "Produto Desconhecido" && rec.category == "Outros" && rec.cost == 0.0
    ensures (exists p :: p in products && p.id == rec.sale.productId) ==>
              exists p :: p in products && p.id == rec.sale.productId &&
                rec.productName == p.name.GetOr("Produto Desconhecido") && rec.category == p.category && rec.cost == p.cost
  {
    var joined := LeftJoin(ProductJoin(), sales, products);
    ReconciledFrom(sales, products, customers, rec);
    var m :| m in LeftJoin(CustomerJoin(), joined, customers) && rec == FillDefaults(m);
    CustomerJoinProvenance(joined, customers, m);
    var sp := SaleProduct(m.sale, m.productName, m.category, m.cost);
    ProductJoinProvenance(sales, products, sp);
    if exists p :: p in products && p.id == rec.sale.productId {
      var p :| p in products && p.id == sp.sale.productId &&
               sp.productName == p.name && sp.category == Some(p.category) && sp.cost == Some(p.cost);
      assert rec.productName == p.name.GetOr("Produto Desconhecido") && rec.category == p.category && rec.cost == p.cost;
    }
  }

  /**
   * The customer columns of a reconciled row: those of a customer with the
   * sale's `ID_Cliente` (an absent e-mail becoming "desconhecido@email.com")
   * or, when no customer has that ID, "Desconhecido",
   * "desconhecido@email.com", "Desconhecida" and "XX".
   */
  lemma ReconciledCustomerColumns(sales: seq<Sale>, products: seq<Product>, customers: seq<Customer>, rec: Record)
    requires rec in Reconcile(sales, products, customers)
    ensures (forall c :: c in customers ==> c.id != rec.sale.customerId) ==>
              rec.customerName == "Desconhecido" && rec.email == "desconhecido@email.com" &&
              rec.city == "Desconhecida" && rec.state == "XX"
    ensures (exists c :: c in customers && c.id == rec.sale.customerId) ==>
              exists c :: c in customers && c.id == rec.sale.customerId &&
                rec.customerName == c.name && rec.email == c.email.GetOr("desconhecido@email.com") &&
                rec.city == c.city && rec.state == c.state
  {
    var joined := LeftJoin(ProductJoin(), sales, products);
    ReconciledFrom(sales, products, customers, rec);
    var m :| m in LeftJoin(CustomerJoin(), joined, customers) && rec == FillDefaults(m);
    CustomerJoinProvenance(joined, customers, m);
    if exists c :: c in customers && c.id == rec.sale.customerId {
      var c :| c in customers && c.id == m.sale.customerId &&
               m.customerName == Some(c.name) && m.email == c.email && m.city == Some(c.city) && m.state == Some(c.state);
      assert rec.customerName == c.name && rec.email == c.email.GetOr("desconhecido@email.com");
    }
  }

  /**
   * Every reconciled row carries a sanitized sale. Its product columns are
   * those of a product with the sale's `ID_Produto` (an absent product name
   * becoming "Produto Desconhecido") or, when no product has that ID,
   * "Produto Desconhecido", "Outros" and cost 0; likewise its customer columns
   * come from a customer with the sale's `ID_Cliente` (an absent e-mail becoming
   * "desconhecido@email.com") or are "Desconhecido", "desconhecido@email.com",
   * "Desconhecida" and "XX".
   */
  lemma ReconciledRowProvenance(sales: seq<Sale>, products: seq<Product>, customers: seq<Customer>, rec: Record)
    requires rec in Reconcile(sales, products, customers)
    ensures rec.sale in sales
    ensures (forall p :: p in products ==> p.id != rec.sale.productId) ==>
              rec.productName == "Produto Desconhecido" && rec.category == "Outros" && rec.cost == 0.0
    ensures (exists p :: p in products && p.id == rec.sale.productId) ==>
              exists p :: p in products && p.id == rec.sale.productId &&
                rec.productName == p.name.GetOr("Produto Desconhecido") && rec.category == p.category && rec.cost == p.cost
    ensures (forall c :: c in customers ==> c.id != rec.sale.customerId) ==>
              rec.customerName == "Desconhecido" && rec.email == "desconhecido@email.com" &&
              rec.city == "Desconhecida" && rec.state == "XX"
    ensures (exists c :: c in customers && c.id == rec.sale.customerId) ==>
              exists c :: c in customers && c.id == rec.sale.customerId &&
                rec.customerName == c.name && rec.email == c.email.GetOr("desconhecido@email.com") &&
                rec.city == c.city && rec.state == c.state
  {
    ReconciledProductColumns(sales, products, customers, rec);
    ReconciledCustomerColumns(sales, products, customers, rec);
  }

  /**
   * With unique product and customer IDs, the reconciled table has one row per
   * sanitized sale, in order, each joined with that sale's product and customer.
   */
  lemma ReconcileOneToOne(sales: seq<Sale>, products: seq<Product>, customers: seq<Customer>)
    requires UniqueKeys(ProductId, products) && UniqueKeys(CustomerId, customers)
    ensures |Reconcile(sales, products, customers)| == |sales|
    ensures forall i :: 0 <= i < |sales| ==>
      Reconcile(sales, products, customers)[i] ==
        Reconciled(sales[i], FirstMatch(ProductId, sales[i].productId, products),
                   FirstMatch(CustomerId, sales[i].customerId, customers))
  {
    var joined := LeftJoin(ProductJoin(), sales, products);
    forall i | 0 <= i < |sales| ensures |MatchesOf(ProductId, sales[i].productId, products)| <= 1 {
      UniqueKeysAtMostOneMatch(ProductId, products, sales[i].productId);
    }
    LeftJoinOneToOne(ProductJoin(), sales, products);
    forall i | 0 <= i < |joined| ensures |MatchesOf(CustomerId, joined[i].sale.customerId, customers)| <= 1 {
      UniqueKeysAtMostOneMatch(CustomerId, customers, joined[i].sale.customerId);
    }
    LeftJoinOneToOne(CustomerJoin(), joined, customers);
    var merged := LeftJoin(CustomerJoin(), joined, customers);
    FilterMapTotal(merged, FillRule);
  }
}
