/** Sequence operations shared by every stage of the pipeline: nullable cells,
    row filters (boolean masks), first-occurrence de-duplication, occurrence
    counts and concatenation of chunks. Every stage of the pipeline removes rows
    and never edits them, so most results are stated as subsequences. */
module Table {

  /** A nullable cell of a table: `None` plays the part of a missing value. */
  datatype Option<+T> = None | Some(value: T)

  /** `a` is obtained from `b` by deleting elements; the relative order of
      the elements that remain is unchanged. */
  predicate Subseq<T(==)>(a: seq<T>, b: seq<T>)
    decreases |b|
  {
    if |b| == 0 then |a| == 0
    else (|a| > 0 && a[0] == b[0] && Subseq(a[1..], b[1..])) || Subseq(a, b[1..])
  }

  /** No element occurs twice. */
  predicate Distinct<T(==)>(s: seq<T>) {
    forall i, j :: 0 <= i < j < |s| ==> s[i] != s[j]
  }

  /** Position of the first occurrence of `x` in `s`. */
  function IndexOf<T(==)>(s: seq<T>, x: T): (k: nat)
    requires x in s
    ensures k < |s| && s[k] == x && x !in s[..k]
  {
    if s[0] == x then 0 else 1 + IndexOf(s[1..], x)
  }

  /** Number of occurrences of `x` in `s`. */
  function Count<T(==)>(s: seq<T>, x: T): nat {
    if |s| == 0 then 0 else (if s[0] == x then 1 else 0) + Count(s[1..], x)
  }

  /** Concatenation of a list of chunks, in list order. */
  function Flatten<T>(ss: seq<seq<T>>): seq<T> {
    if |ss| == 0 then [] else Flatten(ss[..|ss| - 1]) + ss[|ss| - 1]
  }

  /** A boolean mask applied to a table: the rows satisfying `keep`, in their
      original order. */
  function Filter<T(==,!new)>(s: seq<T>, keep: T -> bool): (r: seq<T>)
    ensures |r| <= |s|
    ensures forall i :: 0 <= i < |r| ==> keep(r[i])
    ensures forall x :: x in r <==> x in s && keep(x)
    ensures Subseq(r, s)
  {
    if |s| == 0 then []
    else
      var rest := Filter(s[1..], keep);
      assert s == [s[0]] + s[1..];
      if keep(s[0]) then
        var r := [s[0]] + rest;
        assert r[1..] == rest;
        r
      else
        assert rest == [] || rest[0] != s[0];
        rest
  }

  /** Keeps the first occurrence of every element not in `seen`, in order of
      first appearance. */
  function DedupAfter<T(==,!new)>(s: seq<T>, seen: set<T>): (r: seq<T>)
    ensures Distinct(r)
    ensures forall x :: x in r <==> x in s && x !in seen
    ensures Subseq(r, s)
    ensures forall i, j :: 0 <= i < j < |r| ==> IndexOf(s, r[i]) < IndexOf(s, r[j])
    decreases |s|
  {
    if |s| == 0 then []
    else
      assert s == [s[0]] + s[1..];
      if s[0] in seen then
        var rest := DedupAfter(s[1..], seen);
        assert forall x :: x in rest ==> x != s[0] && IndexOf(s, x) == 1 + IndexOf(s[1..], x);
        rest
      else
        var rest := DedupAfter(s[1..], seen + {s[0]});
        var r := [s[0]] + rest;
        assert r[1..] == rest;
        assert forall x :: x in rest ==> x != s[0] && IndexOf(s, x) == 1 + IndexOf(s[1..], x);
        assert forall i :: 0 < i < |r| ==> r[i] == rest[i - 1];
        r
  }

  /** First-occurrence de-duplication: the result holds every element of `s`
      exactly once, ordered by where each first appears in `s`. */
  function Dedup<T(==,!new)>(s: seq<T>): (r: seq<T>)
    ensures Distinct(r)
    ensures forall x :: x in r <==> x in s
    ensures Subseq(r, s)
    ensures forall i, j :: 0 <= i < j < |r| ==> IndexOf(s, r[i]) < IndexOf(s, r[j])
  {
    DedupAfter(s, {})
  }

  /** The set of elements of a sequence. */
  function Elements<T>(s: seq<T>): set<T> {
    set x | x in s
  }

  /** Sequences with the same multiset have the same elements. */
  lemma MultisetElements<T>(a: seq<T>, b: seq<T>)
    requires multiset(a) == multiset(b)
    ensures Elements(a) == Elements(b)
  {
    forall x ensures x in a <==> x in b {
      assert x in a <==> x in multiset(a);
      assert x in b <==> x in multiset(b);
    }
  }

  lemma {:induction false} SubseqMembers<T>(a: seq<T>, b: seq<T>)
    requires Subseq(a, b)
    ensures |a| <= |b|
    ensures forall x :: x in a ==> x in b
    decreases |b|
  {
    if |b| > 0 {
      if |a| > 0 && a[0] == b[0] && Subseq(a[1..], b[1..]) {
        SubseqMembers(a[1..], b[1..]);
        assert a == [a[0]] + a[1..];
      } else {
        SubseqMembers(a, b[1..]);
      }
    }
  }

  lemma {:induction false} SubseqRefl<T>(s: seq<T>)
    ensures Subseq(s, s)
    decreases |s|
  {
    if |s| > 0 {
      SubseqRefl(s[1..]);
    }
  }

  lemma {:induction false} SubseqTrans<T>(a: seq<T>, b: seq<T>, c: seq<T>)
    requires Subseq(a, b) && Subseq(b, c)
    ensures Subseq(a, c)
    decreases |c|
  {
    if |c| > 0 {
      if |b| > 0 && b[0] == c[0] && Subseq(b[1..], c[1..]) {
        if |a| > 0 && a[0] == b[0] && Subseq(a[1..], b[1..]) {
          SubseqTrans(a[1..], b[1..], c[1..]);
        } else {
          SubseqTrans(a, b[1..], c[1..]);
        }
      } else {
        SubseqTrans(a, b, c[1..]);
      }
    }
  }

  lemma {:induction false} SubseqEmpty<T>(b: seq<T>)
    ensures Subseq([], b)
    decreases |b|
  {
    if |b| > 0 {
      SubseqEmpty(b[1..]);
    }
  }

  lemma {:induction false} SubseqConcat<T>(a1: seq<T>, b1: seq<T>, a2: seq<T>, b2: seq<T>)
    requires Subseq(a1, b1) && Subseq(a2, b2)
    ensures Subseq(a1 + a2, b1 + b2)
    decreases |b1|
  {
    if |b1| == 0 {
      assert a1 + a2 == a2 && b1 + b2 == b2;
    } else {
      assert (b1 + b2)[1..] == b1[1..] + b2;
      if |a1| > 0 && a1[0] == b1[0] && Subseq(a1[1..], b1[1..]) {
        SubseqConcat(a1[1..], b1[1..], a2, b2);
        assert (a1 + a2)[1..] == a1[1..] + a2;
      } else {
        SubseqConcat(a1, b1[1..], a2, b2);
      }
    }
  }

  lemma {:induction false} CountConcat<T>(a: seq<T>, b: seq<T>, x: T)
    ensures Count(a + b, x) == Count(a, x) + Count(b, x)
    decreases |a|
  {
    if |a| > 0 {
      assert (a + b)[1..] == a[1..] + b;
      CountConcat(a[1..], b, x);
    } else {
      assert a + b == b;
    }
  }

  /** An element is counted exactly when it occurs. */
  lemma {:induction false} CountPositive<T>(s: seq<T>, x: T)
    ensures Count(s, x) > 0 <==> x in s
    decreases |s|
  {
    if |s| > 0 {
      CountPositive(s[1..], x);
      assert s == [s[0]] + s[1..];
    }
  }

  /** Putting a new element in front keeps a sequence duplicate-free. */
  lemma DistinctCons<T>(x: T, s: seq<T>)
    requires Distinct(s) && x !in s
    ensures Distinct([x] + s)
  {
    var r := [x] + s;
    forall a, b | 0 <= a < b < |r| ensures r[a] != r[b] {
      assert r[b] == s[b - 1];
      if a > 0 {
        assert r[a] == s[a - 1];
      }
    }
  }

  lemma {:induction false} FilterConcat<T(!new)>(a: seq<T>, b: seq<T>, keep: T -> bool)
    ensures Filter(a + b, keep) == Filter(a, keep) + Filter(b, keep)
    decreases |a|
  {
    if |a| > 0 {
      assert (a + b)[1..] == a[1..] + b;
      FilterConcat(a[1..], b, keep);
    } else {
      assert a + b == b;
    }
  }

  /** A mask keeps every copy of a row it keeps: each value occurs in the
      result as often as in the input, or not at all. */
  lemma {:induction false} FilterCount<T(!new)>(s: seq<T>, keep: T -> bool, x: T)
    ensures Count(Filter(s, keep), x) == if keep(x) then Count(s, x) else 0
    decreases |s|
  {
    if |s| > 0 {
      FilterCount(s[1..], keep, x);
      var r := Filter(s, keep);
      if keep(s[0]) {
        assert r[0] == s[0] && r[1..] == Filter(s[1..], keep);
      } else {
        assert r == Filter(s[1..], keep);
      }
    }
  }

  /** A mask decides on a row's value, so it keeps all copies of a value or
      none; therefore it preserves which of two kept values appears first. */
  lemma {:induction false} FilterKeepsFirstOrder<T(!new)>(s: seq<T>, keep: T -> bool, x: T, y: T)
    requires x in Filter(s, keep) && y in Filter(s, keep)
    ensures IndexOf(Filter(s, keep), x) < IndexOf(Filter(s, keep), y) <==> IndexOf(s, x) < IndexOf(s, y)
    decreases |s|
  {
    var r := Filter(s, keep);
    if s[0] != x && s[0] != y {
      assert x in s[1..] && y in s[1..];
      FilterKeepsFirstOrder(s[1..], keep, x, y);
      if keep(s[0]) {
        assert r[0] == s[0] && r[1..] == Filter(s[1..], keep);
      } else {
        assert r == Filter(s[1..], keep);
      }
    } else {
      assert keep(s[0]) && r[0] == s[0];
    }
  }

  /** A duplicate-free sequence has as many distinct elements as positions. */
  lemma {:induction false} DistinctCard<T>(s: seq<T>)
    requires Distinct(s)
    ensures |Elements(s)| == |s|
    decreases |s|
  {
    if |s| > 0 {
      assert s == [s[0]] + s[1..];
      assert s[0] !in s[1..];
      DistinctCard(s[1..]);
      assert Elements(s) == {s[0]} + Elements(s[1..]);
    }
  }

  /** Values that cannot occur in `s` make no difference to what counts as
      already seen. */
  lemma {:induction false} DedupAfterIgnores<T(!new)>(s: seq<T>, seen: set<T>, extra: set<T>)
    requires forall x :: x in s ==> x !in extra
    ensures DedupAfter(s, seen + extra) == DedupAfter(s, seen)
    decreases |s|
  {
    if |s| > 0 {
      assert s == [s[0]] + s[1..];
      if s[0] in seen {
        DedupAfterIgnores(s[1..], seen, extra);
      } else {
        assert seen + extra + {s[0]} == seen + {s[0]} + extra;
        DedupAfterIgnores(s[1..], seen + {s[0]}, extra);
      }
    }
  }

  /** De-duplicating a concatenation: the second part loses whatever the
      first part already showed. */
  lemma {:induction false} DedupAfterConcat<T(!new)>(a: seq<T>, b: seq<T>, seen: set<T>)
    ensures DedupAfter(a + b, seen) == DedupAfter(a, seen) + DedupAfter(b, seen + Elements(a))
    decreases |a|
  {
    if |a| == 0 {
      assert a + b == b && Elements(a) == {};
      assert seen + Elements(a) == seen;
    } else {
      assert (a + b)[0] == a[0] && (a + b)[1..] == a[1..] + b;
      assert Elements(a) == {a[0]} + Elements(a[1..]);
      if a[0] in seen {
        DedupAfterConcat(a[1..], b, seen);
        assert seen + Elements(a[1..]) == seen + Elements(a);
      } else {
        DedupAfterConcat(a[1..], b, seen + {a[0]});
        assert seen + {a[0]} + Elements(a[1..]) == seen + Elements(a);
      }
    }
  }

  /** When two parts share no value, de-duplicating their concatenation
      de-duplicates each part on its own. */
  lemma DedupConcatDisjoint<T(!new)>(a: seq<T>, b: seq<T>)
    requires forall x :: x in a ==> x !in b
    ensures Dedup(a + b) == Dedup(a) + Dedup(b)
  {
    var none: set<T> := {};
    DedupAfterConcat(a, b, none);
    assert none + Elements(a) == Elements(a);
    DedupAfterIgnores(b, none, Elements(a));
  }

  /** Every element of a concatenation comes from one of its chunks. */
  lemma {:induction false} FlattenMember<T>(ss: seq<seq<T>>, x: T)
    requires x in Flatten(ss)
    ensures exists i :: 0 <= i < |ss| && x in ss[i]
    decreases |ss|
  {
    var n := |ss|;
    if x !in ss[n - 1] {
      FlattenMember(ss[..n - 1], x);
      var i :| 0 <= i < n - 1 && x in ss[..n - 1][i];
      assert ss[i] == ss[..n - 1][i];
    }
  }

  lemma FlattenSnoc<T>(ss: seq<seq<T>>, c: seq<T>)
    ensures Flatten(ss + [c]) == Flatten(ss) + c
  {
    assert (ss + [c])[..|ss|] == ss;
  }
}
