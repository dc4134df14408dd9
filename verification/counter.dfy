/** The two counting tools the pipeline uses: a running `Counter` that is
    updated with a list of ids (task1.py:68, 81), and the one-shot
    `value_counts` of a column (task1.py:101). Both are maps from an id to
    its number of occurrences; a key that was never seen reads as 0. */
module Counter {
  import opened Table

  /** Reading a Counter: a missing key counts 0. */
  function Get(c: map<int, int>, k: int): int {
    if k in c then c[k] else 0
  }

  /** `Counter.update(ids)`: every occurrence of an id in `ids` adds one to
      its count; keys appear only for ids that occur. */
  method Update(c: map<int, int>, ids: seq<int>) returns (r: map<int, int>)
    ensures forall k :: Get(r, k) == Get(c, k) + Count(ids, k)
    ensures forall k :: k in r <==> k in c || k in ids
  {
    r := c;
    var i := 0;
    while i < |ids|
      invariant 0 <= i <= |ids|
      invariant forall k :: Get(r, k) == Get(c, k) + Count(ids[..i], k)
      invariant forall k :: k in r <==> k in c || k in ids[..i]
    {
      var id := ids[i];
      r := r[id := Get(r, id) + 1];
      assert ids[..i + 1] == ids[..i] + [id];
      forall k ensures Count(ids[..i + 1], k) == Count(ids[..i], k) + (if id == k then 1 else 0) {
        CountConcat(ids[..i], [id], k);
      }
      i := i + 1;
    }
    assert ids[..i] == ids;
  }

  /** `value_counts()` of a column: the map from each value present to the
      number of times it occurs. */
  function ValueCounts(ids: seq<int>): (m: map<int, int>)
    ensures forall k :: Get(m, k) == Count(ids, k)
    ensures forall k :: k in m <==> k in ids
  {
    if |ids| == 0 then map[]
    else
      assert ids == [ids[0]] + ids[1..];
      var m := ValueCounts(ids[1..]);
      m[ids[0] := Get(m, ids[0]) + 1]
  }
}
