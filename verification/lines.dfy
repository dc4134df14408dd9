/** Rows of order_products_prior.csv and the per-chunk cleaning of
    task1.py:72-78: drop rows with a missing key, keep rows of eligible
    orders, then drop repeated (order_id, product_id) pairs. Also the
    per-order and per-product occurrence counts used by the later filters. */
module Lines {
  import opened Table

  /** One order line: "this product was in this order". */
  datatype LineRow = LineRow(orderId: Option<int>, productId: Option<int>)

  /** Both key cells are present. */
  predicate Complete(x: LineRow) {
    x.orderId.Some? && x.productId.Some?
  }

  /** The line belongs to an order of the given set. */
  predicate InOrders(x: LineRow, orders: set<int>) {
    x.orderId.Some? && x.orderId.value in orders
  }

  /** `chunk.dropna(subset=["order_id", "product_id"])`. */
  function DropNullLines(chunk: seq<LineRow>): (r: seq<LineRow>)
    ensures forall x :: x in r <==> x in chunk && Complete(x)
    ensures Subseq(r, chunk)
    ensures forall x :: Count(r, x) == if Complete(x) then Count(chunk, x) else 0
  {
    forall x ensures Count(Filter(chunk, Complete), x) == if Complete(x) then Count(chunk, x) else 0 {
      FilterCount(chunk, Complete, x);
    }
    Filter(chunk, Complete)
  }

  /** `chunk[chunk["order_id"].isin(orders)]`: a set-membership test on the
      order id. */
  function KeepOrders(rows: seq<LineRow>, orders: set<int>): (r: seq<LineRow>)
    ensures forall x :: x in r <==> x in rows && InOrders(x, orders)
    ensures Subseq(r, rows)
    ensures forall x :: Count(r, x) == if InOrders(x, orders) then Count(rows, x) else 0
  {
    var keep := (x: LineRow) => InOrders(x, orders);
    forall x ensures Count(Filter(rows, keep), x) == if keep(x) then Count(rows, x) else 0 {
      FilterCount(rows, keep, x);
    }
    Filter(rows, keep)
  }

  /** One chunk after null removal, the eligibility test and
      `drop_duplicates(subset=["order_id", "product_id"])`: the complete,
      eligible rows of the chunk, each pair once. */
  function CleanChunk(chunk: seq<LineRow>, eligible: set<int>): (r: seq<LineRow>)
    ensures forall i :: 0 <= i < |r| ==> Complete(r[i]) && InOrders(r[i], eligible)
    ensures forall x :: x in r <==> x in chunk && Complete(x) && InOrders(x, eligible)
    ensures Distinct(r)
  {
    var r := Dedup(KeepOrders(DropNullLines(chunk), eligible));
    assert forall i :: 0 <= i < |r| ==> r[i] in r;
    r
  }

  /** The cleaned chunk keeps the chunk's row order, each pair at the
      position where it first appears. */
  lemma CleanChunkOrder(chunk: seq<LineRow>, eligible: set<int>)
    ensures Subseq(CleanChunk(chunk, eligible), chunk)
    ensures var r := CleanChunk(chunk, eligible);
      forall i, j :: 0 <= i < j < |r| ==> IndexOf(chunk, r[i]) < IndexOf(chunk, r[j])
  {
    var complete := DropNullLines(chunk);
    var kept := KeepOrders(complete, eligible);
    var r := Dedup(kept);
    SubseqTrans(kept, complete, chunk);
    SubseqTrans(r, kept, chunk);
    forall i, j | 0 <= i < j < |r| ensures IndexOf(chunk, r[i]) < IndexOf(chunk, r[j]) {
      assert r[i] in r && r[j] in r;
      FilterKeepsFirstOrder(complete, (x: LineRow) => InOrders(x, eligible), r[i], r[j]);
      FilterKeepsFirstOrder(chunk, Complete, r[i], r[j]);
    }
  }

  /** Number of lines of order `o`. */
  function CountOrder(rows: seq<LineRow>, o: int): nat {
    if |rows| == 0 then 0
    else (if rows[0].orderId == Some(o) then 1 else 0) + CountOrder(rows[1..], o)
  }

  /** Number of lines of product `p`. */
  function CountProduct(rows: seq<LineRow>, p: int): nat {
    if |rows| == 0 then 0
    else (if rows[0].productId == Some(p) then 1 else 0) + CountProduct(rows[1..], p)
  }

  /** `rows["order_id"].tolist()` of a table without missing order ids. */
  function OrderIds(rows: seq<LineRow>): (r: seq<int>)
    requires forall i :: 0 <= i < |rows| ==> rows[i].orderId.Some?
    ensures |r| == |rows|
    ensures forall i :: 0 <= i < |r| ==> rows[i].orderId == Some(r[i])
  {
    if |rows| == 0 then [] else [rows[0].orderId.value] + OrderIds(rows[1..])
  }

  /** `rows["product_id"]` of a table without missing product ids. */
  function ProductIds(rows: seq<LineRow>): (r: seq<int>)
    requires forall i :: 0 <= i < |rows| ==> rows[i].productId.Some?
    ensures |r| == |rows|
    ensures forall i :: 0 <= i < |r| ==> rows[i].productId == Some(r[i])
  {
    if |rows| == 0 then [] else [rows[0].productId.value] + ProductIds(rows[1..])
  }

  /** Counting ids in the order-id column is counting lines per order. */
  lemma {:induction false} OrderIdsCount(rows: seq<LineRow>, o: int)
    requires forall i :: 0 <= i < |rows| ==> rows[i].orderId.Some?
    ensures Count(OrderIds(rows), o) == CountOrder(rows, o)
    decreases |rows|
  {
    if |rows| > 0 {
      OrderIdsCount(rows[1..], o);
      assert OrderIds(rows)[1..] == OrderIds(rows[1..]);
    }
  }

  /** Counting ids in the product-id column is counting lines per product. */
  lemma {:induction false} ProductIdsCount(rows: seq<LineRow>, p: int)
    requires forall i :: 0 <= i < |rows| ==> rows[i].productId.Some?
    ensures Count(ProductIds(rows), p) == CountProduct(rows, p)
    decreases |rows|
  {
    if |rows| > 0 {
      ProductIdsCount(rows[1..], p);
      assert ProductIds(rows)[1..] == ProductIds(rows[1..]);
    }
  }

  lemma {:induction false} CountOrderConcat(a: seq<LineRow>, b: seq<LineRow>, o: int)
    ensures CountOrder(a + b, o) == CountOrder(a, o) + CountOrder(b, o)
    decreases |a|
  {
    if |a| > 0 {
      assert (a + b)[1..] == a[1..] + b;
      CountOrderConcat(a[1..], b, o);
    } else {
      assert a + b == b;
    }
  }

  /** An order has lines exactly when it is the order id of some line. */
  lemma {:induction false} CountOrderPositive(rows: seq<LineRow>, o: int)
    ensures CountOrder(rows, o) > 0 <==> exists x :: x in rows && x.orderId == Some(o)
    decreases |rows|
  {
    if |rows| > 0 {
      CountOrderPositive(rows[1..], o);
      assert rows == [rows[0]] + rows[1..];
    }
  }

  /** A product has lines exactly when it is the product id of some line. */
  lemma {:induction false} CountProductPositive(rows: seq<LineRow>, p: int)
    ensures CountProduct(rows, p) > 0 <==> exists x :: x in rows && x.productId == Some(p)
    decreases |rows|
  {
    if |rows| > 0 {
      CountProductPositive(rows[1..], p);
      assert rows == [rows[0]] + rows[1..];
    }
  }

  /** Keeping whole orders keeps their line counts and zeroes the others. */
  lemma {:induction false} KeepOrdersCount(rows: seq<LineRow>, orders: set<int>, o: int)
    ensures CountOrder(KeepOrders(rows, orders), o) == if o in orders then CountOrder(rows, o) else 0
    decreases |rows|
  {
    if |rows| > 0 {
      KeepOrdersCount(rows[1..], orders, o);
      var r := KeepOrders(rows, orders);
      if InOrders(rows[0], orders) {
        assert r[0] == rows[0] && r[1..] == KeepOrders(rows[1..], orders);
      } else {
        assert r == KeepOrders(rows[1..], orders);
      }
    }
  }

  /** The set of order ids present in a line table. */
  function LineOrderIds(rows: seq<LineRow>): set<int> {
    set x | x in rows && x.orderId.Some? :: x.orderId.value
  }
}
