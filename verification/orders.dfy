/** The order-header side of task1.py (lines 42-58): drop orders with a
    missing key, sample users without replacement, keep the sampled users'
    "prior" orders, and collect their order ids as the eligible set. */
module Orders {
  import opened Table

  /** Sample size cap (task1.py:47). */
  const N_USERS: nat := 20000

  /** The only eval_set label kept for basket mining (task1.py:56). */
  const PRIOR: string := "prior"

  /** One row of orders.csv; `None` is a missing cell. The three integer
      columns are carried along and never inspected. */
  datatype OrderRow = OrderRow(
    orderId: Option<int>,
    userId: Option<int>,
    evalSet: Option<string>,
    orderNumber: int,
    orderDow: int,
    orderHourOfDay: int)

  /** Row has order_id, user_id and eval_set. */
  predicate HasKeys(x: OrderRow) {
    x.orderId.Some? && x.userId.Some? && x.evalSet.Some?
  }

  function Min(a: nat, b: nat): nat {
    if a <= b then a else b
  }

  /** `dropna(subset=["order_id", "user_id", "eval_set"])`. */
  function DropNullKeys(orders: seq<OrderRow>): (r: seq<OrderRow>)
    ensures forall i :: 0 <= i < |r| ==> HasKeys(r[i])
    ensures forall x :: x in r <==> x in orders && HasKeys(x)
    ensures Subseq(r, orders)
    ensures forall x :: Count(r, x) == if HasKeys(x) then Count(orders, x) else 0
  {
    forall x ensures Count(Filter(orders, HasKeys), x) == if HasKeys(x) then Count(orders, x) else 0 {
      FilterCount(orders, HasKeys, x);
    }
    Filter(orders, HasKeys)
  }

  /** The user_id column of rows whose user_id is present. */
  function UserColumn(orders: seq<OrderRow>): (r: seq<int>)
    requires forall i :: 0 <= i < |orders| ==> orders[i].userId.Some?
    ensures |r| == |orders|
    ensures forall i :: 0 <= i < |r| ==> orders[i].userId == Some(r[i])
  {
    seq(|orders|, i requires 0 <= i < |orders| => orders[i].userId.value)
  }

  /** The distinct users of the cleaned orders, as a set. */
  function CleanUsers(orders: seq<OrderRow>): set<int> {
    set x | x in orders && HasKeys(x) :: x.userId.value
  }

  /** `orders["user_id"].unique()`: every user once, in order of first
      appearance. */
  function UniqueUsers(orders: seq<OrderRow>): (r: seq<int>)
    requires forall i :: 0 <= i < |orders| ==> orders[i].userId.Some?
    ensures Distinct(r)
    ensures forall u :: u in r <==> exists x :: x in orders && x.userId == Some(u)
    ensures forall u :: u in r <==> u in UserColumn(orders)
    ensures forall i, j :: 0 <= i < j < |r| ==>
      IndexOf(UserColumn(orders), r[i]) < IndexOf(UserColumn(orders), r[j])
  {
    var col := UserColumn(orders);
    var r := Dedup(col);
    assert forall u :: u in col <==> exists x :: x in orders && x.userId == Some(u) by {
      forall u | u in col ensures exists x :: x in orders && x.userId == Some(u) {
        var i :| 0 <= i < |col| && col[i] == u;
        assert orders[i] in orders;
      }
      forall u | exists x :: x in orders && x.userId == Some(u) ensures u in col {
        var x :| x in orders && x.userId == Some(u);
        var i :| 0 <= i < |orders| && orders[i] == x;
        assert col[i] == u;
      }
    }
    r
  }

  /** `s` without its element at position `j`. */
  function RemoveAt(s: seq<int>, j: nat): (r: seq<int>)
    requires j < |s|
    ensures |r| == |s| - 1
    ensures multiset(r) + multiset{s[j]} == multiset(s)
    ensures Distinct(s) ==> Distinct(r) && s[j] !in r
  {
    var r := s[..j] + s[j + 1..];
    assert s == s[..j] + [s[j]] + s[j + 1..];
    assert Distinct(s) ==> Distinct(r) && s[j] !in r by {
      if Distinct(s) {
        RemoveAtDistinct(s, j);
      }
    }
    r
  }

  lemma RemoveAtDistinct(s: seq<int>, j: nat)
    requires j < |s| && Distinct(s)
    ensures Distinct(s[..j] + s[j + 1..]) && s[j] !in s[..j] + s[j + 1..]
  {
    var r := s[..j] + s[j + 1..];
    forall a, b | 0 <= a < b < |r| ensures r[a] != r[b] {
      assert r[a] == s[if a < j then a else a + 1] && r[b] == s[if b < j then b else b + 1];
    }
    forall a | 0 <= a < |r| ensures r[a] != s[j] {
      assert r[a] == s[if a < j then a else a + 1];
    }
  }

  /** `rng.choice(pool, size, replace=False)`. The generator's draws are a
      parameter: the k-th pick takes position `draws[k] mod m` of the `m`
      entries not picked yet (a missing draw reads as 0). Every way of
      drawing `size` distinct positions is such a sequence of picks. */
  function Choice(pool: seq<int>, size: nat, draws: seq<nat>): (r: seq<int>)
    requires size <= |pool|
    ensures |r| == size
    ensures multiset(r) <= multiset(pool)
    ensures Distinct(pool) ==> Distinct(r)
    ensures size == |pool| ==> multiset(r) == multiset(pool)
    decreases size
  {
    if size == 0 then []
    else
      var j := (if |draws| > 0 then draws[0] else 0) % |pool|;
      var rest := Choice(RemoveAt(pool, j), size - 1, if |draws| > 0 then draws[1..] else []);
      ChoiceStep(pool, j, rest);
      [pool[j]] + rest
  }

  /** One pick of `Choice`: the picked entry in front of a draw from the
      rest of the pool. */
  lemma ChoiceStep(pool: seq<int>, j: nat, rest: seq<int>)
    requires j < |pool|
    requires multiset(rest) <= multiset(RemoveAt(pool, j))
    requires Distinct(RemoveAt(pool, j)) ==> Distinct(rest)
    requires |rest| == |pool| - 1 ==> multiset(rest) == multiset(RemoveAt(pool, j))
    ensures multiset([pool[j]] + rest) <= multiset(pool)
    ensures Distinct(pool) ==> Distinct([pool[j]] + rest)
    ensures |rest| == |pool| - 1 ==> multiset([pool[j]] + rest) == multiset(pool)
  {
    assert multiset([pool[j]] + rest) == multiset{pool[j]} + multiset(rest);
    if Distinct(pool) {
      assert pool[j] !in multiset(rest);
      DistinctCons(pool[j], rest);
    }
  }

  /** Sampling `min(N_USERS, len(users))` users (task1.py:50-51). */
  function SampleUsers(users: seq<int>, draws: seq<nat>): (r: seq<int>)
    ensures |r| == Min(N_USERS, |users|)
    ensures forall u :: u in r ==> u in users
    ensures Distinct(users) ==> Distinct(r)
    ensures |users| <= N_USERS ==> multiset(r) == multiset(users)
  {
    var r := Choice(users, Min(N_USERS, |users|), draws);
    assert forall u :: u in r ==> u in multiset(r);
    r
  }

  /** `orders[orders["user_id"].isin(sample_users)]`. */
  function RestrictUsers(orders: seq<OrderRow>, sample: seq<int>): (r: seq<OrderRow>)
    ensures forall x :: x in r <==> x in orders && x.userId.Some? && x.userId.value in sample
    ensures Subseq(r, orders)
    ensures forall x :: Count(r, x) == if x.userId.Some? && x.userId.value in sample then Count(orders, x) else 0
  {
    var keep := (x: OrderRow) => x.userId.Some? && x.userId.value in sample;
    forall x ensures Count(Filter(orders, keep), x) == if keep(x) then Count(orders, x) else 0 {
      FilterCount(orders, keep, x);
    }
    Filter(orders, keep)
  }

  /** `orders[orders["eval_set"].isin(["prior"])]`. */
  function PriorOnly(orders: seq<OrderRow>): (r: seq<OrderRow>)
    ensures forall x :: x in r <==> x in orders && x.evalSet == Some(PRIOR)
    ensures Subseq(r, orders)
    ensures forall x :: Count(r, x) == if x.evalSet == Some(PRIOR) then Count(orders, x) else 0
  {
    var keep := (x: OrderRow) => x.evalSet == Some(PRIOR);
    forall x ensures Count(Filter(orders, keep), x) == if keep(x) then Count(orders, x) else 0 {
      FilterCount(orders, keep, x);
    }
    Filter(orders, keep)
  }

  /** `set(orders["order_id"].tolist())`. */
  function OrderIdSet(orders: seq<OrderRow>): set<int> {
    set x | x in orders && x.orderId.Some? :: x.orderId.value
  }

  /** Result of the order loader: the sampled users, the order-header table
      restricted to them, and its eligible order ids. */
  datatype Cohort = Cohort(sample: seq<int>, header: seq<OrderRow>, eligible: set<int>)

  /** Lines 42-58 of task1.py as one step. */
  function SelectCohort(orders: seq<OrderRow>, draws: seq<nat>): (c: Cohort)
    ensures |c.sample| == Min(N_USERS, |CleanUsers(orders)|)
    ensures Distinct(c.sample)
    ensures forall u :: u in c.sample ==> u in CleanUsers(orders)
    ensures |CleanUsers(orders)| <= N_USERS ==> Elements(c.sample) == CleanUsers(orders)
    ensures forall i :: 0 <= i < |c.header| ==> HasKeys(c.header[i])
    ensures forall x :: x in c.header <==>
      x in orders && HasKeys(x) && x.userId.value in c.sample && x.evalSet == Some(PRIOR)
    ensures Subseq(c.header, orders)
    ensures forall x :: Count(c.header, x) ==
                        if HasKeys(x) && x.userId.value in c.sample && x.evalSet == Some(PRIOR)
                        then Count(orders, x) else 0
    ensures c.eligible == OrderIdSet(c.header)
    ensures forall o :: o in c.eligible <==>
      exists x :: x in orders && HasKeys(x) && x.orderId == Some(o)
        && x.userId.value in c.sample && x.evalSet == Some(PRIOR)
  {
    var cleaned := DropNullKeys(orders);
    var users := UniqueUsers(cleaned);
    assert Elements(users) == CleanUsers(orders);
    DistinctCard(users);
    var sample := SampleUsers(users, draws);
    assert |users| <= N_USERS ==> Elements(sample) == Elements(users) by {
      if |users| <= N_USERS {
        MultisetElements(sample, users);
      }
    }
    var restricted := RestrictUsers(cleaned, sample);
    var header := PriorOnly(restricted);
    SubseqTrans(restricted, cleaned, orders);
    SubseqTrans(header, restricted, orders);
    assert forall i :: 0 <= i < |header| ==> HasKeys(header[i]) by {
      forall i | 0 <= i < |header| ensures HasKeys(header[i]) {
        assert header[i] in header;
      }
    }
    Cohort(sample, header, OrderIdSet(header))
  }
}
