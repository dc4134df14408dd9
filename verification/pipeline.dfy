/** The whole of task1.py's row pipeline, stage after stage: order cohort,
    chunk loop, basket-size filter, product-frequency filter, enrichment.
    Every intermediate table is returned so that the properties of each
    stage can be stated about the run. */
module Pipeline {
  import opened Table
  import opened Counter
  import opened Orders
  import opened Lines
  import opened Streaming
  import opened Filters
  import opened Enrichment

  /** The basket-size filter's cut (task1.py:90-93): the header keeps every
      copy of the orders with at least MIN_BASKET streamed lines and nothing
      else, the lines keep all lines of those orders, and both tables hold
      the same orders. */
  ghost predicate BasketStage(cohortHeader: seq<OrderRow>, streamed: seq<LineRow>,
                        header: seq<OrderRow>, baskets: seq<LineRow>)
  {
    && Subseq(header, cohortHeader)
    && (forall x :: Count(header, x) ==
          if x.orderId.Some? && CountOrder(streamed, x.orderId.value) >= MIN_BASKET
          then Count(cohortHeader, x) else 0)
    && Subseq(baskets, streamed)
    && OrderIdSet(header) == LineOrderIds(baskets)
    && (forall o :: o in LineOrderIds(baskets) <==> CountOrder(streamed, o) >= MIN_BASKET)
    && (forall o :: CountOrder(baskets, o) ==
          if CountOrder(streamed, o) >= MIN_BASKET then CountOrder(streamed, o) else 0)
  }

  /** The product-frequency filter's cut (task1.py:101-104): exactly the lines
      of products with at least MIN_PRODUCT_COUNT basket lines, all of them,
      in basket order. */
  ghost predicate FrequencyStage(baskets: seq<LineRow>, frequent: seq<LineRow>) {
    && Subseq(frequent, baskets)
    && (forall x :: x in frequent <==>
          x in baskets && x.productId.Some? && CountProduct(baskets, x.productId.value) >= MIN_PRODUCT_COUNT)
    && (forall p :: CountProduct(frequent, p) ==
          if CountProduct(baskets, p) >= MIN_PRODUCT_COUNT then CountProduct(baskets, p) else 0)
  }

  /** The final table (task1.py:110-117): every row carries the catalogue's
      name of its catalogued product, belongs to a header order, and its
      product still has at least MIN_PRODUCT_COUNT lines. */
  predicate FinalRows(final: seq<NamedLine>, header: seq<OrderRow>, catalog: Catalog) {
    forall i :: 0 <= i < |final| ==>
      && final[i].productName.Some?
      && final[i].productId.Some? && final[i].productId.value in catalog
      && catalog[final[i].productId.value] == final[i].productName
      && final[i].orderId.Some? && final[i].orderId.value in OrderIdSet(header)
      && CountProduct(Strip(final), final[i].productId.value) >= MIN_PRODUCT_COUNT
  }

  /** task1.py:42-117 on the given orders, random draw, chunks of the fact
      file and product catalogue. */
  method RunPipeline(orders: seq<OrderRow>, draws: seq<nat>, chunks: seq<seq<LineRow>>, catalog: Catalog)
    returns (cohort: Cohort, streamed: seq<LineRow>, counts: map<int, int>, header: seq<OrderRow>,
             baskets: seq<LineRow>, frequent: seq<LineRow>, final: seq<NamedLine>)
    // chunk loop: a counter that agrees with the streamed table
    ensures forall o :: Get(counts, o) == CountOrder(streamed, o)
    // basket filter: header and lines hold the same orders, each with >= 2 lines
    ensures BasketStage(cohort.header, streamed, header, baskets)
    // frequency filter: exactly the lines of products with >= MIN_PRODUCT_COUNT lines
    ensures FrequencyStage(baskets, frequent)
    // enrichment and the final table
    ensures Strip(final) == MatchedLines(frequent, catalog)
    ensures FinalRows(final, header, catalog)
    ensures Subseq(header, orders)
    ensures Subseq(Strip(final), Flatten(chunks))
    // the tables each stage starts from: the cohort of the given orders and
    // draw, and the fact file's chunks cleaned and concatenated
    ensures cohort == SelectCohort(orders, draws)
    ensures streamed == StreamedLines(chunks, cohort.eligible)
  {
    cohort, streamed, counts := LoadAndStream(orders, draws, chunks);
    header, baskets, frequent, final := FilterAndEnrich(cohort.header, streamed, counts, catalog);
    StreamedRows(chunks, cohort.eligible);
    SubseqTrans(header, cohort.header, orders);
    SubseqTrans(Strip(final), streamed, Flatten(chunks));
  }

  /** The stages after the chunk loop (task1.py:90-117): basket-size filter,
      product-frequency filter and enrichment, on a line table whose rows
      are complete and belong to header orders and a counter that agrees
      with it. */
  method FilterAndEnrich(cohortHeader: seq<OrderRow>, streamed: seq<LineRow>, counts: map<int, int>, catalog: Catalog)
    returns (header: seq<OrderRow>, baskets: seq<LineRow>, frequent: seq<LineRow>, final: seq<NamedLine>)
    requires forall i :: 0 <= i < |streamed| ==>
      Complete(streamed[i]) && InOrders(streamed[i], OrderIdSet(cohortHeader))
    requires forall o :: Get(counts, o) == CountOrder(streamed, o)
    ensures BasketStage(cohortHeader, streamed, header, baskets)
    ensures FrequencyStage(baskets, frequent)
    ensures Strip(final) == MatchedLines(frequent, catalog)
    ensures FinalRows(final, header, catalog)
    ensures Subseq(Strip(final), streamed)
  {
    header, baskets := BasketFilter(cohortHeader, streamed, counts);
    forall i | 0 <= i < |baskets| ensures Complete(baskets[i]) {
      assert baskets[i] in baskets;
    }
    frequent, final := FrequencyAndEnrich(header, baskets, catalog);
    SubseqTrans(Strip(final), baskets, streamed);
  }

  /** The stages after the basket filter (task1.py:99-117): product-frequency
      filter and enrichment, on a line table whose rows are complete and
      whose orders are the header's. */
  method FrequencyAndEnrich(header: seq<OrderRow>, baskets: seq<LineRow>, catalog: Catalog)
    returns (frequent: seq<LineRow>, final: seq<NamedLine>)
    requires forall i :: 0 <= i < |baskets| ==> Complete(baskets[i])
    requires LineOrderIds(baskets) == OrderIdSet(header)
    ensures FrequencyStage(baskets, frequent)
    ensures Strip(final) == MatchedLines(frequent, catalog)
    ensures FinalRows(final, header, catalog)
    ensures Subseq(Strip(final), baskets)
  {
    frequent := FrequencyFilter(baskets, MIN_PRODUCT_COUNT);
    final := Enrich(frequent, catalog);
    FinalFacts(frequent, baskets, catalog, header, final);
    SubseqTrans(MatchedLines(frequent, catalog), frequent, baskets);
  }

  /** The order loader followed by the chunk loop (task1.py:42-85). */
  method LoadAndStream(orders: seq<OrderRow>, draws: seq<nat>, chunks: seq<seq<LineRow>>)
    returns (cohort: Cohort, streamed: seq<LineRow>, counts: map<int, int>)
    ensures cohort == SelectCohort(orders, draws)
    ensures forall o :: o in cohort.eligible <==>
      exists x :: x in orders && HasKeys(x) && x.orderId == Some(o)
        && x.userId.value in cohort.sample && x.evalSet == Some(PRIOR)
    ensures forall i :: 0 <= i < |streamed| ==>
      Complete(streamed[i]) && InOrders(streamed[i], OrderIdSet(cohort.header))
    ensures forall o :: Get(counts, o) == CountOrder(streamed, o)
    ensures cohort.eligible == OrderIdSet(cohort.header)
    ensures Subseq(cohort.header, orders)
    ensures streamed == StreamedLines(chunks, cohort.eligible)
  {
    cohort := SelectCohort(orders, draws);
    streamed, counts := StreamChunks(chunks, cohort.eligible);
    StreamedRows(chunks, cohort.eligible);
  }

  /** The final table carries the catalogue's names and keeps the orders and
      product counts of the frequency filter's output. */
  lemma FinalFacts(frequent: seq<LineRow>, baskets: seq<LineRow>, catalog: Catalog,
                   header: seq<OrderRow>, final: seq<NamedLine>)
    requires forall i :: 0 <= i < |baskets| ==> Complete(baskets[i])
    requires LineOrderIds(baskets) == OrderIdSet(header)
    requires FrequencyStage(baskets, frequent)
    requires final == Enrich(frequent, catalog)
    ensures forall i :: 0 <= i < |frequent| ==>
      Complete(frequent[i]) && CountProduct(baskets, frequent[i].productId.value) >= MIN_PRODUCT_COUNT
    ensures FinalRows(final, header, catalog)
  {
    SubseqMembers(frequent, baskets);
    forall i | 0 <= i < |frequent|
      ensures Complete(frequent[i]) && CountProduct(baskets, frequent[i].productId.value) >= MIN_PRODUCT_COUNT
    {
      assert frequent[i] in frequent;
      var k :| 0 <= k < |baskets| && baskets[k] == frequent[i];
    }
    var s := Strip(final);
    var m := MatchedLines(frequent, catalog);
    assert s == m;
    forall i | 0 <= i < |final|
      ensures && final[i].orderId.Some? && final[i].orderId.value in OrderIdSet(header)
              && CountProduct(s, final[i].productId.value) >= MIN_PRODUCT_COUNT
    {
      var x := s[i];
      assert x.orderId == final[i].orderId && x.productId == final[i].productId;
      assert x in m;
      assert x in frequent;
      assert x in baskets;
      var k :| 0 <= k < |baskets| && baskets[k] == x;
      assert x.orderId.value in LineOrderIds(baskets);
      var p := x.productId.value;
      MatchedLinesCount(frequent, catalog, p);
      CountProductPositive(frequent, p);
    }
  }
}
