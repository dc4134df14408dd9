/** The chunk loop of task1.py:67-85: every chunk of the fact file is
    cleaned on its own, its order ids are added to one running Counter, and
    the cleaned chunks are concatenated in chunk order at the end. The
    partition of the file into chunks is arbitrary. */
module Streaming {
  import opened Table
  import opened Counter
  import opened Lines

  /** `kept_chunks` once every chunk is processed: each chunk cleaned, in
      chunk order. */
  function KeptChunks(chunks: seq<seq<LineRow>>, eligible: set<int>): seq<seq<LineRow>> {
    seq(|chunks|, i requires 0 <= i < |chunks| => CleanChunk(chunks[i], eligible))
  }

  /** `pd.concat(kept_chunks)`: the table the loop produces. */
  function StreamedLines(chunks: seq<seq<LineRow>>, eligible: set<int>): seq<LineRow> {
    Flatten(KeptChunks(chunks, eligible))
  }

  /** The loop: returns the concatenated table and `order_item_counts`. The
      counter agrees with the concatenated table on every order, however an
      order's lines are spread over chunks. */
  method StreamChunks(chunks: seq<seq<LineRow>>, eligible: set<int>)
    returns (kept: seq<LineRow>, counts: map<int, int>)
    ensures forall o :: Get(counts, o) == CountOrder(kept, o)
    ensures forall o :: o in counts <==> CountOrder(kept, o) > 0
    ensures kept == StreamedLines(chunks, eligible)
  {
    var keptChunks: seq<seq<LineRow>> := [];
    counts := map[];
    var i := 0;
    while i < |chunks|
      invariant 0 <= i <= |chunks|
      invariant keptChunks == KeptChunks(chunks[..i], eligible)
      invariant forall o :: Get(counts, o) == CountOrder(Flatten(keptChunks), o)
      invariant forall o :: o in counts <==> CountOrder(Flatten(keptChunks), o) > 0
    {
      var chunk := CleanChunk(chunks[i], eligible);
      var ids := OrderIds(chunk);
      var before := counts;
      counts := Update(counts, ids);
      ghost var prev := Flatten(keptChunks);
      keptChunks := keptChunks + [chunk];
      KeptChunksSnoc(chunks, eligible, i);
      CounterStep(prev, chunk, before, counts);
      i := i + 1;
    }
    assert chunks[..i] == chunks;
    kept := Flatten(keptChunks);
  }

  /** Every streamed row is complete and eligible, and the streamed table is
      a subsequence of the fact file. */
  lemma StreamedRows(chunks: seq<seq<LineRow>>, eligible: set<int>)
    ensures forall i :: 0 <= i < |StreamedLines(chunks, eligible)| ==>
      Complete(StreamedLines(chunks, eligible)[i]) && InOrders(StreamedLines(chunks, eligible)[i], eligible)
    ensures Subseq(StreamedLines(chunks, eligible), Flatten(chunks))
  {
    StreamedEligible(chunks, eligible);
    StreamedSubseq(chunks, eligible);
  }

  lemma {:induction false} StreamedEligible(chunks: seq<seq<LineRow>>, eligible: set<int>)
    ensures forall i :: 0 <= i < |StreamedLines(chunks, eligible)| ==>
      Complete(StreamedLines(chunks, eligible)[i]) && InOrders(StreamedLines(chunks, eligible)[i], eligible)
    decreases |chunks|
  {
    var n := |chunks|;
    if n == 0 {
      assert StreamedLines(chunks, eligible) == [];
    } else {
      var init := chunks[..n - 1];
      StreamedEligible(init, eligible);
      KeptChunksSnoc(chunks, eligible, n - 1);
      assert chunks[..n] == chunks;
      var prev, c := StreamedLines(init, eligible), CleanChunk(chunks[n - 1], eligible);
      assert StreamedLines(chunks, eligible) == prev + c;
      forall i | 0 <= i < |prev + c|
        ensures Complete((prev + c)[i]) && InOrders((prev + c)[i], eligible)
      {
        if i >= |prev| {
          assert (prev + c)[i] == c[i - |prev|];
        }
      }
    }
  }

  lemma {:induction false} StreamedSubseq(chunks: seq<seq<LineRow>>, eligible: set<int>)
    ensures Subseq(StreamedLines(chunks, eligible), Flatten(chunks))
    decreases |chunks|
  {
    var n := |chunks|;
    if n == 0 {
      assert StreamedLines(chunks, eligible) == [];
      SubseqEmpty(Flatten(chunks));
    } else {
      var init := chunks[..n - 1];
      StreamedSubseq(init, eligible);
      KeptChunksSnoc(chunks, eligible, n - 1);
      assert chunks[..n] == chunks;
      CleanChunkOrder(chunks[n - 1], eligible);
      SubseqConcat(StreamedLines(init, eligible), Flatten(init), CleanChunk(chunks[n - 1], eligible), chunks[n - 1]);
    }
  }

  /** One more chunk appends its cleaned rows to the concatenation. */
  lemma KeptChunksSnoc(chunks: seq<seq<LineRow>>, eligible: set<int>, i: nat)
    requires i < |chunks|
    ensures KeptChunks(chunks[..i], eligible) + [CleanChunk(chunks[i], eligible)] == KeptChunks(chunks[..i + 1], eligible)
    ensures Flatten(KeptChunks(chunks[..i + 1], eligible)) ==
      Flatten(KeptChunks(chunks[..i], eligible)) + CleanChunk(chunks[i], eligible)
    ensures Flatten(chunks[..i + 1]) == Flatten(chunks[..i]) + chunks[i]
  {
    assert chunks[..i + 1] == chunks[..i] + [chunks[i]];
    FlattenSnoc(chunks[..i], chunks[i]);
    FlattenSnoc(KeptChunks(chunks[..i], eligible), CleanChunk(chunks[i], eligible));
  }

  /** After `Counter.update` with a chunk's order ids, the counter agrees
      with the rows kept so far followed by that chunk. */
  lemma CounterStep(prev: seq<LineRow>, chunk: seq<LineRow>, before: map<int, int>, after: map<int, int>)
    requires forall j :: 0 <= j < |chunk| ==> chunk[j].orderId.Some?
    requires forall o :: Get(before, o) == CountOrder(prev, o)
    requires forall o :: o in before <==> CountOrder(prev, o) > 0
    requires forall k :: Get(after, k) == Get(before, k) + Count(OrderIds(chunk), k)
    requires forall k :: k in after <==> k in before || k in OrderIds(chunk)
    ensures forall o :: Get(after, o) == CountOrder(prev + chunk, o)
    ensures forall o :: o in after <==> CountOrder(prev + chunk, o) > 0
  {
    forall o ensures Get(after, o) == CountOrder(prev + chunk, o)
      && (o in after <==> CountOrder(prev + chunk, o) > 0)
    {
      OrderIdsCount(chunk, o);
      CountPositive(OrderIds(chunk), o);
      CountOrderConcat(prev, chunk, o);
    }
  }

  /** A chunk whose every row is the same eligible pair is cleaned to one
      row. */
  lemma SameRowChunk(chunk: seq<LineRow>, x: LineRow, eligible: set<int>)
    requires x in chunk && Complete(x) && InOrders(x, eligible)
    requires forall i :: 0 <= i < |chunk| ==> chunk[i] == x
    ensures CleanChunk(chunk, eligible) == [x]
  {
    var r := CleanChunk(chunk, eligible);
    assert x in r;
  }

  /** A pair repeated inside one chunk is kept once and counted once. */
  lemma DuplicateInsideChunkCollapsed(x: LineRow, eligible: set<int>)
    requires Complete(x) && InOrders(x, eligible)
    ensures StreamedLines([[x, x]], eligible) == [x]
    ensures CountOrder(StreamedLines([[x, x]], eligible), x.orderId.value) == 1
  {
    SameRowChunk([x, x], x, eligible);
    assert KeptChunks([[x, x]], eligible) == [[x]];
    assert Flatten([[x]]) == Flatten<LineRow>([]) + [x];
  }

  /** The same pair in two different chunks is NOT de-duplicated: it is kept
      twice and its order is counted twice. */
  lemma DuplicateAcrossChunksKept(x: LineRow, eligible: set<int>)
    requires Complete(x) && InOrders(x, eligible)
    ensures StreamedLines([[x], [x]], eligible) == [x, x]
    ensures CountOrder(StreamedLines([[x], [x]], eligible), x.orderId.value) == 2
  {
    SameRowChunk([x], x, eligible);
    assert KeptChunks([[x], [x]], eligible) == [[x], [x]];
    assert [[x], [x]][..1] == [[x]];
    assert Flatten([[x]]) == Flatten<LineRow>([]) + [x];
    var o := x.orderId.value;
    assert [x, x][1..] == [x] && [x][1..] == [];
    assert CountOrder([x], o) == 1;
    assert CountOrder([x, x], o) == 2;
  }

  /** No complete, eligible row occurs in two different chunks. */
  predicate NoKeptRowInTwoChunks(chunks: seq<seq<LineRow>>, eligible: set<int>) {
    forall i, j, x :: 0 <= i < j < |chunks| && x in chunks[i] && x in chunks[j] ==>
      !(Complete(x) && InOrders(x, eligible))
  }

  /** The two masks of the cleaning, before de-duplication. */
  function Masked(s: seq<LineRow>, eligible: set<int>): seq<LineRow> {
    KeepOrders(DropNullLines(s), eligible)
  }

  lemma MaskedConcat(a: seq<LineRow>, b: seq<LineRow>, eligible: set<int>)
    ensures Masked(a + b, eligible) == Masked(a, eligible) + Masked(b, eligible)
  {
    FilterConcat(a, b, Complete);
    FilterConcat(DropNullLines(a), DropNullLines(b), (x: LineRow) => InOrders(x, eligible));
  }

  /** Unless a kept row occurs in two different chunks, the chunking does
      not matter: the concatenated cleaned chunks are the whole file cleaned
      at once. Repeats inside one chunk are allowed; the only difference is
      the one `DuplicateAcrossChunksKept` shows. */
  lemma {:induction false} ChunkingInvariant(chunks: seq<seq<LineRow>>, eligible: set<int>)
    requires NoKeptRowInTwoChunks(chunks, eligible)
    ensures Flatten(KeptChunks(chunks, eligible)) == CleanChunk(Flatten(chunks), eligible)
    decreases |chunks|
  {
    if |chunks| == 0 {
      assert KeptChunks(chunks, eligible) == [];
    } else {
      var n := |chunks|;
      var init, last := chunks[..n - 1], chunks[n - 1];
      assert chunks == init + [last];
      assert NoKeptRowInTwoChunks(init, eligible) by {
        forall i, j, x | 0 <= i < j < |init| && x in init[i] && x in init[j]
          ensures !(Complete(x) && InOrders(x, eligible))
        {
          assert init[i] == chunks[i] && init[j] == chunks[j];
        }
      }
      ChunkingInvariant(init, eligible);
      KeptChunksSnoc(chunks, eligible, n - 1);
      var a, b := Masked(Flatten(init), eligible), Masked(last, eligible);
      forall x | x in a ensures x !in b {
        if x in b {
          FlattenMember(init, x);
          assert false;
        }
      }
      MaskedConcat(Flatten(init), last, eligible);
      DedupConcatDisjoint(a, b);
      assert chunks[..n] == chunks && chunks[..n - 1] == init;
      assert Flatten(chunks) == Flatten(init) + last;
      assert CleanChunk(Flatten(chunks), eligible) == Dedup(a + b);
      assert Flatten(KeptChunks(chunks, eligible)) == Dedup(a) + Dedup(b);
    }
  }
}
