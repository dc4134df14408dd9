/** The name enrichment of task1.py:110-117: a left join of the line table
    with the product catalogue on product_id, then `dropna` on the joined
    product_name. Product ids are a key of the catalogue, so the join never
    multiplies rows. */
module Enrichment {
  import opened Table
  import opened Lines

  /** A line with the product name the join attached (`None` when none). */
  datatype NamedLine = NamedLine(orderId: Option<int>, productId: Option<int>, productName: Option<string>)

  /** product_id to product_name of products.csv; a name cell may be
      missing. */
  type Catalog = map<int, Option<string>>

  /** The name the join attaches to a product id. */
  function LookupName(catalog: Catalog, pid: Option<int>): Option<string> {
    if pid.Some? && pid.value in catalog then catalog[pid.value] else None
  }

  /** The line's product is in the catalogue with a name. */
  predicate Matched(catalog: Catalog, x: LineRow) {
    LookupName(catalog, x.productId).Some?
  }

  /** `merge(products[["product_id", "product_name"]], on="product_id",
      how="left")`: one output row per input row, in input order. */
  function LeftJoinNames(lines: seq<LineRow>, catalog: Catalog): (r: seq<NamedLine>)
    ensures |r| == |lines|
    ensures forall i :: 0 <= i < |r| ==>
      r[i].orderId == lines[i].orderId && r[i].productId == lines[i].productId
    ensures forall i :: 0 <= i < |r| ==> (r[i].productName.Some? <==> Matched(catalog, lines[i]))
    ensures forall i :: 0 <= i < |r| ==> r[i].productName == LookupName(catalog, lines[i].productId)
  {
    seq(|lines|, i requires 0 <= i < |lines| =>
      NamedLine(lines[i].orderId, lines[i].productId, LookupName(catalog, lines[i].productId)))
  }

  /** `dropna(subset=["product_name"])`. */
  function DropUnnamed(rows: seq<NamedLine>): (r: seq<NamedLine>)
    ensures forall x :: x in r <==> x in rows && x.productName.Some?
    ensures Subseq(r, rows)
    ensures forall x :: Count(r, x) == if x.productName.Some? then Count(rows, x) else 0
  {
    var keep := (x: NamedLine) => x.productName.Some?;
    forall x ensures Count(Filter(rows, keep), x) == if keep(x) then Count(rows, x) else 0 {
      FilterCount(rows, keep, x);
    }
    Filter(rows, keep)
  }

  /** The line-table columns of a named table. */
  function Strip(rows: seq<NamedLine>): (r: seq<LineRow>)
    ensures |r| == |rows|
  {
    seq(|rows|, i requires 0 <= i < |rows| => LineRow(rows[i].orderId, rows[i].productId))
  }

  /** The lines whose product has a name in the catalogue. */
  function MatchedLines(lines: seq<LineRow>, catalog: Catalog): seq<LineRow> {
    Filter(lines, (x: LineRow) => Matched(catalog, x))
  }

  /** Join then drop: every surviving row carries the catalogue's name of a
      catalogued product, and forgetting the names gives back the input minus
      its unmatched lines, in the same order. */
  function Enrich(lines: seq<LineRow>, catalog: Catalog): (r: seq<NamedLine>)
    ensures forall i :: 0 <= i < |r| ==>
      && r[i].productName.Some?
      && r[i].productId.Some? && r[i].productId.value in catalog
      && catalog[r[i].productId.value] == r[i].productName
    ensures Strip(r) == MatchedLines(lines, catalog)
  {
    var r := DropUnnamed(LeftJoinNames(lines, catalog));
    EnrichStrip(lines, catalog);
    assert forall i :: 0 <= i < |r| ==> r[i] in r;
    assert forall x :: x in LeftJoinNames(lines, catalog) && x.productName.Some? ==>
      x.productId.Some? && x.productId.value in catalog && catalog[x.productId.value] == x.productName;
    r
  }

  lemma {:induction false} EnrichStrip(lines: seq<LineRow>, catalog: Catalog)
    ensures Strip(DropUnnamed(LeftJoinNames(lines, catalog))) == MatchedLines(lines, catalog)
    decreases |lines|
  {
    if |lines| > 0 {
      EnrichStrip(lines[1..], catalog);
      var j := LeftJoinNames(lines, catalog);
      assert j[1..] == LeftJoinNames(lines[1..], catalog);
      var d := DropUnnamed(j);
      var m := MatchedLines(lines, catalog);
      if Matched(catalog, lines[0]) {
        assert d == [j[0]] + DropUnnamed(j[1..]);
        assert m == [lines[0]] + MatchedLines(lines[1..], catalog);
        assert Strip(d) == [lines[0]] + Strip(DropUnnamed(j[1..]));
      } else {
        assert d == DropUnnamed(j[1..]);
        assert m == MatchedLines(lines[1..], catalog);
      }
    }
  }

  /** Whether a line matches depends only on its product, so matching keeps
      or drops all lines of a product together. */
  lemma {:induction false} MatchedLinesCount(lines: seq<LineRow>, catalog: Catalog, p: int)
    ensures CountProduct(MatchedLines(lines, catalog), p) ==
      if LookupName(catalog, Some(p)).Some? then CountProduct(lines, p) else 0
    decreases |lines|
  {
    if |lines| > 0 {
      MatchedLinesCount(lines[1..], catalog, p);
      var m := MatchedLines(lines, catalog);
      if Matched(catalog, lines[0]) {
        assert m[0] == lines[0] && m[1..] == MatchedLines(lines[1..], catalog);
      } else {
        assert m == MatchedLines(lines[1..], catalog);
      }
    }
  }
}
