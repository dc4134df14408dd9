/** The two filters that need the whole streamed table: the basket-size
    filter (task1.py:90-93), applied to the line table and the order-header
    table alike, and the product-frequency filter (task1.py:99-104). */
module Filters {
  import opened Table
  import opened Counter
  import opened Orders
  import opened Lines

  /** Smallest basket kept (task1.py:90, inclusive). */
  const MIN_BASKET: int := 2

  /** Default frequency floor for products (task1.py:99, inclusive). */
  const MIN_PRODUCT_COUNT: nat := 50

  /** `valid_orders`: the orders the counter saw at least twice. */
  function ValidOrders(counts: map<int, int>): (r: set<int>)
    ensures forall o :: o in r <==> Get(counts, o) >= MIN_BASKET
  {
    set o | o in counts && counts[o] >= MIN_BASKET
  }

  /** `orders_sub[orders_sub["order_id"].isin(valid)]`. */
  function KeepHeaderOrders(header: seq<OrderRow>, valid: set<int>): (r: seq<OrderRow>)
    ensures forall x :: x in r <==> x in header && x.orderId.Some? && x.orderId.value in valid
    ensures Subseq(r, header)
    ensures forall x :: Count(r, x) == if x.orderId.Some? && x.orderId.value in valid then Count(header, x) else 0
  {
    var keep := (x: OrderRow) => x.orderId.Some? && x.orderId.value in valid;
    forall x ensures Count(Filter(header, keep), x) == if keep(x) then Count(header, x) else 0 {
      FilterCount(header, keep, x);
    }
    Filter(header, keep)
  }

  /** The basket filter on the line table: when the counter agrees with the
      table, a line survives exactly when its order has at least two lines,
      and a surviving order keeps all of its lines. */
  lemma BasketLines(lines: seq<LineRow>, counts: map<int, int>)
    requires forall o :: Get(counts, o) == CountOrder(lines, o)
    ensures var r := KeepOrders(lines, ValidOrders(counts));
      && (forall x :: x in r <==> x in lines && x.orderId.Some? && CountOrder(lines, x.orderId.value) >= MIN_BASKET)
      && (forall o :: CountOrder(r, o) == if CountOrder(lines, o) >= MIN_BASKET then CountOrder(lines, o) else 0)
      && (forall i :: 0 <= i < |r| ==> r[i].orderId.Some? && CountOrder(r, r[i].orderId.value) >= MIN_BASKET)
  {
    var valid := ValidOrders(counts);
    var r := KeepOrders(lines, valid);
    forall o ensures CountOrder(r, o) == if CountOrder(lines, o) >= MIN_BASKET then CountOrder(lines, o) else 0 {
      KeepOrdersCount(lines, valid, o);
    }
    forall i | 0 <= i < |r| ensures r[i].orderId.Some? && CountOrder(r, r[i].orderId.value) >= MIN_BASKET {
      assert r[i] in r;
    }
  }

  /** The header and line tables are cut by the same `valid_orders`, so
      afterwards they hold the same orders: exactly the valid ones. This
      needs every line's order to be in the header table and the counter to
      agree with the line table, which the streaming stage guarantees. */
  lemma BasketLockstep(header: seq<OrderRow>, lines: seq<LineRow>, counts: map<int, int>)
    requires LineOrderIds(lines) <= OrderIdSet(header)
    requires forall o :: Get(counts, o) == CountOrder(lines, o)
    ensures OrderIdSet(KeepHeaderOrders(header, ValidOrders(counts))) == ValidOrders(counts)
    ensures LineOrderIds(KeepOrders(lines, ValidOrders(counts))) == ValidOrders(counts)
  {
    var valid := ValidOrders(counts);
    var h := KeepHeaderOrders(header, valid);
    var l := KeepOrders(lines, valid);
    forall o | o in valid ensures o in OrderIdSet(h) && o in LineOrderIds(l) {
      CountOrderPositive(lines, o);
      var y :| y in lines && y.orderId == Some(o);
      assert y in l;
      assert o in OrderIdSet(header);
      var x :| x in header && x.orderId == Some(o);
      assert x in h;
    }
  }

  /** Lines 90-93 of task1.py: compute `valid_orders` from the counter and
      cut the line table and the header table with it. The streaming stage
      guarantees the preconditions: every line is complete and belongs to an
      eligible order, the eligible orders are the header's, and the counter
      agrees with the line table. */
  method BasketFilter(header: seq<OrderRow>, lines: seq<LineRow>, counts: map<int, int>)
    returns (keptHeader: seq<OrderRow>, keptLines: seq<LineRow>)
    requires forall i :: 0 <= i < |lines| ==> Complete(lines[i]) && InOrders(lines[i], OrderIdSet(header))
    requires forall o :: Get(counts, o) == CountOrder(lines, o)
    ensures OrderIdSet(keptHeader) == LineOrderIds(keptLines)
    ensures forall o :: o in LineOrderIds(keptLines) <==> CountOrder(lines, o) >= MIN_BASKET
    ensures forall x :: x in keptLines ==> Complete(x) && CountOrder(keptLines, x.orderId.value) >= MIN_BASKET
    ensures forall o :: (CountOrder(keptLines, o) ==
      if CountOrder(lines, o) >= MIN_BASKET then CountOrder(lines, o) else 0)
    ensures Subseq(keptHeader, header)
    ensures Subseq(keptLines, lines)
    ensures forall x :: Count(keptHeader, x) ==
                        if x.orderId.Some? && CountOrder(lines, x.orderId.value) >= MIN_BASKET
                        then Count(header, x) else 0
  {
    var valid := ValidOrders(counts);
    keptLines := KeepOrders(lines, valid);
    keptHeader := KeepHeaderOrders(header, valid);
    BasketLines(lines, counts);
    assert LineOrderIds(lines) <= OrderIdSet(header) by {
      forall o | o in LineOrderIds(lines) ensures o in OrderIdSet(header) {
        var x :| x in lines && x.orderId == Some(o);
        var i :| 0 <= i < |lines| && lines[i] == x;
      }
    }
    BasketLockstep(header, lines, counts);
    forall x | x in keptLines ensures Complete(x) {
      var k :| 0 <= k < |lines| && lines[k] == x;
    }
  }

  /** `value_counts()` of the product column. */
  function ProductCounts(lines: seq<LineRow>): (m: map<int, int>)
    requires forall i :: 0 <= i < |lines| ==> lines[i].productId.Some?
    ensures forall p :: Get(m, p) == CountProduct(lines, p)
    ensures forall p :: p in m <==> CountProduct(lines, p) > 0
  {
    ProductCountsAgree(lines);
    ValueCounts(ProductIds(lines))
  }

  lemma ProductCountsAgree(lines: seq<LineRow>)
    requires forall i :: 0 <= i < |lines| ==> lines[i].productId.Some?
    ensures forall p :: Get(ValueCounts(ProductIds(lines)), p) == CountProduct(lines, p)
    ensures forall p :: p in ValueCounts(ProductIds(lines)) <==> CountProduct(lines, p) > 0
  {
    forall p ensures Get(ValueCounts(ProductIds(lines)), p) == CountProduct(lines, p)
                  && (p in ValueCounts(ProductIds(lines)) <==> CountProduct(lines, p) > 0)
    {
      ProductIdsCount(lines, p);
      CountPositive(ProductIds(lines), p);
    }
  }

  /** `keep_products`: the products counted at least `minCount` times. */
  function FrequentProducts(counts: map<int, int>, minCount: nat): (r: set<int>)
    ensures forall p :: p in r <==> p in counts && Get(counts, p) >= minCount
  {
    set p | p in counts && counts[p] >= minCount
  }

  /** `rows[rows["product_id"].isin(products)]`. */
  function KeepProducts(rows: seq<LineRow>, products: set<int>): (r: seq<LineRow>)
    ensures forall x :: x in r <==> x in rows && x.productId.Some? && x.productId.value in products
    ensures Subseq(r, rows)
    ensures forall x :: Count(r, x) == if x.productId.Some? && x.productId.value in products then Count(rows, x) else 0
  {
    var keep := (x: LineRow) => x.productId.Some? && x.productId.value in products;
    forall x ensures Count(Filter(rows, keep), x) == if keep(x) then Count(rows, x) else 0 {
      FilterCount(rows, keep, x);
    }
    Filter(rows, keep)
  }

  /** Keeping whole products keeps their line counts and zeroes the others. */
  lemma {:induction false} KeepProductsCount(rows: seq<LineRow>, products: set<int>, p: int)
    ensures CountProduct(KeepProducts(rows, products), p) == if p in products then CountProduct(rows, p) else 0
    decreases |rows|
  {
    if |rows| > 0 {
      KeepProductsCount(rows[1..], products, p);
      var r := KeepProducts(rows, products);
      if rows[0].productId.Some? && rows[0].productId.value in products {
        assert r[0] == rows[0] && r[1..] == KeepProducts(rows[1..], products);
      } else {
        assert r == KeepProducts(rows[1..], products);
      }
    }
  }

  /** The product-frequency filter (task1.py:101-104): a line survives
      exactly when its product occurs at least `minCount` times in the input
      table; whole products are removed, so every survivor keeps its count. */
  function FrequencyFilter(lines: seq<LineRow>, minCount: nat): (r: seq<LineRow>)
    requires forall i :: 0 <= i < |lines| ==> lines[i].productId.Some?
    ensures forall x :: x in r <==>
      x in lines && x.productId.Some? && CountProduct(lines, x.productId.value) >= minCount
    ensures forall p :: CountProduct(r, p) == (if CountProduct(lines, p) >= minCount then CountProduct(lines, p) else 0)
    ensures forall i :: 0 <= i < |r| ==> r[i].productId.Some? && CountProduct(r, r[i].productId.value) >= minCount
    ensures Subseq(r, lines)
  {
    var keep := FrequentProducts(ProductCounts(lines), minCount);
    FrequentSet(lines, minCount);
    FrequencyFacts(lines, minCount, keep);
    KeepProducts(lines, keep)
  }

  /** The kept products are those with lines, at least `minCount` of them. */
  lemma FrequentSet(lines: seq<LineRow>, minCount: nat)
    requires forall i :: 0 <= i < |lines| ==> lines[i].productId.Some?
    ensures forall p :: p in FrequentProducts(ProductCounts(lines), minCount) <==>
      CountProduct(lines, p) >= minCount && CountProduct(lines, p) > 0
  {
    forall p ensures p in FrequentProducts(ProductCounts(lines), minCount) <==>
      CountProduct(lines, p) >= minCount && CountProduct(lines, p) > 0
    {
      FrequentProductIff(lines, minCount, p);
    }
  }

  /** Keeping the lines of the frequent products keeps exactly the lines
      whose product clears the floor, with their counts. */
  lemma FrequencyFacts(lines: seq<LineRow>, minCount: nat, keep: set<int>)
    requires forall p :: p in keep <==> CountProduct(lines, p) >= minCount && CountProduct(lines, p) > 0
    ensures forall x :: x in KeepProducts(lines, keep) <==>
      x in lines && x.productId.Some? && CountProduct(lines, x.productId.value) >= minCount
    ensures forall p :: (CountProduct(KeepProducts(lines, keep), p) ==
      if CountProduct(lines, p) >= minCount then CountProduct(lines, p) else 0)
    ensures forall i :: 0 <= i < |KeepProducts(lines, keep)| ==>
      KeepProducts(lines, keep)[i].productId.Some? &&
      CountProduct(KeepProducts(lines, keep), KeepProducts(lines, keep)[i].productId.value) >= minCount
  {
    var r := KeepProducts(lines, keep);
    forall x | x in lines && x.productId.Some? ensures CountProduct(lines, x.productId.value) > 0 {
      CountProductPositive(lines, x.productId.value);
    }
    forall p ensures CountProduct(r, p) == if CountProduct(lines, p) >= minCount then CountProduct(lines, p) else 0 {
      KeepProductsCount(lines, keep, p);
    }
    forall i | 0 <= i < |r| ensures r[i].productId.Some? && CountProduct(r, r[i].productId.value) >= minCount {
      assert r[i] in r;
      CountProductPositive(lines, r[i].productId.value);
    }
  }

  /** A product is frequent exactly when it occurs, at least `minCount`
      times. */
  lemma FrequentProductIff(lines: seq<LineRow>, minCount: nat, p: int)
    requires forall i :: 0 <= i < |lines| ==> lines[i].productId.Some?
    ensures p in FrequentProducts(ProductCounts(lines), minCount) <==>
      CountProduct(lines, p) >= minCount && CountProduct(lines, p) > 0
  {
    ProductIdsCount(lines, p);
    CountPositive(ProductIds(lines), p);
  }

  /** The frequency filter does not re-check basket sizes: with a floor of
      2, an order of two lines can keep only one. */
  lemma FrequencyFilterCanShrinkBasket()
    ensures var lines := [LineRow(Some(1), Some(10)), LineRow(Some(1), Some(11)),
                          LineRow(Some(2), Some(10)), LineRow(Some(2), Some(12))];
      CountOrder(lines, 1) == 2 && CountOrder(FrequencyFilter(lines, 2), 1) == 1
  {
    var lines := [LineRow(Some(1), Some(10)), LineRow(Some(1), Some(11)),
                  LineRow(Some(2), Some(10)), LineRow(Some(2), Some(12))];
    var keep := FrequentProducts(ProductCounts(lines), 2);
    ExampleCounts();
    FrequentProductIff(lines, 2, 10);
    FrequentProductIff(lines, 2, 11);
    FrequentProductIff(lines, 2, 12);
    ExampleKeep(keep);
  }

  lemma ExampleCounts()
    ensures var lines := [LineRow(Some(1), Some(10)), LineRow(Some(1), Some(11)),
                          LineRow(Some(2), Some(10)), LineRow(Some(2), Some(12))];
      && CountProduct(lines, 10) == 2 && CountProduct(lines, 11) == 1 && CountProduct(lines, 12) == 1
      && CountOrder(lines, 1) == 2
  {
    var a, b, c, d := LineRow(Some(1), Some(10)), LineRow(Some(1), Some(11)),
                      LineRow(Some(2), Some(10)), LineRow(Some(2), Some(12));
    assert [a, b, c, d][1..] == [b, c, d] && [b, c, d][1..] == [c, d] && [c, d][1..] == [d];
  }

  lemma ExampleKeep(keep: set<int>)
    requires 10 in keep && 11 !in keep && 12 !in keep
    ensures var r := KeepProducts([LineRow(Some(1), Some(10)), LineRow(Some(1), Some(11)),
                                   LineRow(Some(2), Some(10)), LineRow(Some(2), Some(12))], keep);
      CountOrder(r, 1) == 1
  {
    var a, b, c, d := LineRow(Some(1), Some(10)), LineRow(Some(1), Some(11)),
                      LineRow(Some(2), Some(10)), LineRow(Some(2), Some(12));
    assert [a, b, c, d][1..] == [b, c, d] && [b, c, d][1..] == [c, d] && [c, d][1..] == [d];
    assert KeepProducts([d], keep) == [];
    assert KeepProducts([c, d], keep) == [c];
    assert KeepProducts([b, c, d], keep) == [c];
    assert KeepProducts([a, b, c, d], keep) == [a, c];
    assert [a, c][1..] == [c];
  }
}
