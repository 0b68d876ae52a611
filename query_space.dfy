/** The query space of one refresh: every origin × destination route, and on
    each route every (outbound, inbound) month pair with the inbound month not
    before the outbound one. */
module QuerySpace {
  import opened Strings

  /** `generateCacheKey(from, to)`, the key `${from}-${to}`. */
  function CacheKey(from: string, to: string): (key: string)
    ensures |key| == |from| + 1 + |to|
    ensures key[..|from|] == from && key[|from|] == '-' && key[|from| + 1..] == to
  {
    from + "-" + to
  }

  /** Reads a key back into (origin, destination) by cutting it at its
      first `-`. */
  function SplitKey(key: string): (string, string)
  {
    var i := FirstIndex(key, '-');
    if i < |key| then (key[..i], key[i + 1..]) else (key, "")
  }

  /** Airport codes contain no `-`, so a key determines its route. */
  lemma {:induction false} SplitCacheKey(from: string, to: string)
    requires '-' !in from
    ensures SplitKey(CacheKey(from, to)) == (from, to)
  {
    var key := CacheKey(from, to);
    assert forall k :: 0 <= k < |from| ==> key[k] == from[k];
    assert FirstIndex(key, '-') == |from|;
  }

  lemma {:induction false} CacheKeyInjective(f1: string, t1: string, f2: string, t2: string)
    requires '-' !in f1 && '-' !in f2
    requires CacheKey(f1, t1) == CacheKey(f2, t2)
    ensures f1 == f2 && t1 == t2
  {
    SplitCacheKey(f1, t1);
    SplitCacheKey(f2, t2);
  }

  /** One upstream query: a route and the indices of its outbound and inbound
      months in the month list. */
  datatype Query = Query(from: string, to: string, outbound: nat, inbound: nat)

  /** The queries of the inner loop: outbound month `i`, inbound months `i`
      up to `j - 1`. */
  function RowQueries(from: string, to: string, i: nat, j: nat): seq<Query>
    decreases j
  {
    if j <= i then [] else RowQueries(from, to, i, j - 1) + [Query(from, to, i, j - 1)]
  }

  /** The queries of one route for outbound months `0` up to `m - 1`, with
      `n` months in the list. */
  function RouteQueries(from: string, to: string, m: nat, n: nat): seq<Query>
  {
    if m == 0 then [] else RouteQueries(from, to, m - 1, n) + RowQueries(from, to, m - 1, n)
  }

  /** The queries from one origin to each of `dests` in turn. */
  function DestQueries(from: string, dests: seq<string>, n: nat): seq<Query>
  {
    if dests == [] then []
    else DestQueries(from, dests[..|dests| - 1], n) + RouteQueries(from, dests[|dests| - 1], n, n)
  }

  /** The queries of a whole refresh, in the order the nested loops issue them. */
  function AllQueries(origins: seq<string>, dests: seq<string>, n: nat): seq<Query>
  {
    if origins == [] then []
    else AllQueries(origins[..|origins| - 1], dests, n) + DestQueries(origins[|origins| - 1], dests, n)
  }

  /** The number of month pairs (i, j) with i <= j < n. */
  function PairCount(n: nat): nat
  {
    if n == 0 then 0 else PairCount(n - 1) + n
  }

  /** There are n(n+1)/2 such pairs. */
  lemma {:induction false} PairCountTwice(n: nat)
    ensures 2 * PairCount(n) == n * (n + 1)
  {
    if n > 0 {
      PairCountTwice(n - 1);
      assert (n - 1) * n + 2 * n == n * (n + 1);
    }
  }

  lemma {:induction false} MulSucc(a: nat, b: nat)
    ensures (a + 1) * b == a * b + b
  {
  }

  lemma {:induction false} RowQueriesAre(from: string, to: string, i: nat, j: nat, q: Query)
    ensures |RowQueries(from, to, i, j)| == if j <= i then 0 else j - i
    ensures q in RowQueries(from, to, i, j) <==>
      q.from == from && q.to == to && q.outbound == i && i <= q.inbound < j
  {
    if j > i {
      RowQueriesAre(from, to, i, j - 1, q);
    }
  }

  /** Adding the row of outbound month `k` to the first `k` rows. */
  lemma RowsArithmetic(k: nat, n: nat)
    requires k < n
    ensures k * (2 * n - k + 1) + 2 * (n - k) == (k + 1) * (2 * n - (k + 1) + 1)
  {
    assert k * (2 * n - k + 1) == 2 * n * k - k * k + k;
    assert (k + 1) * (2 * n - k) == 2 * n * k - k * k + 2 * n - k;
  }

  lemma {:induction false} RouteQueriesAre(from: string, to: string, m: nat, n: nat, q: Query)
    requires m <= n
    ensures 2 * |RouteQueries(from, to, m, n)| == m * (2 * n - m + 1)
    ensures q in RouteQueries(from, to, m, n) <==>
      q.from == from && q.to == to && q.outbound < m && q.outbound <= q.inbound < n
  {
    if m > 0 {
      var k := m - 1;
      RouteQueriesAre(from, to, k, n, q);
      RowQueriesAre(from, to, k, n, q);
      RowsArithmetic(k, n);
      assert |RouteQueries(from, to, m, n)| == |RouteQueries(from, to, k, n)| + (n - k);
    }
  }

  lemma {:induction false} DestQueriesAre(from: string, dests: seq<string>, n: nat, q: Query)
    ensures |DestQueries(from, dests, n)| == |dests| * PairCount(n)
    ensures q in DestQueries(from, dests, n) <==>
      q.from == from && q.to in dests && q.outbound <= q.inbound < n
  {
    if dests != [] {
      var front, to := dests[..|dests| - 1], dests[|dests| - 1];
      assert dests == front + [to];
      DestQueriesAre(from, front, n, q);
      RouteQueriesAre(from, to, n, n, q);
      PairCountTwice(n);
      assert n * (2 * n - n + 1) == n * (n + 1);
      assert |RouteQueries(from, to, n, n)| == PairCount(n);
      MulSucc(|front|, PairCount(n));
    }
  }

  /** A refresh issues |origins| × |dests| × n(n+1)/2 queries. */
  lemma {:induction false} AllQueriesCount(origins: seq<string>, dests: seq<string>, n: nat)
    ensures |AllQueries(origins, dests, n)| == |origins| * (|dests| * PairCount(n))
  {
    if origins != [] {
      var front, from := origins[..|origins| - 1], origins[|origins| - 1];
      AllQueriesCount(front, dests, n);
      DestQueriesAre(from, dests, n, Query("", "", 0, 0));
      var c := |dests| * PairCount(n);
      assert |AllQueries(origins, dests, n)| == |front| * c + c;
      MulSucc(|front|, c);
    }
  }

  /** A refresh issues exactly the queries whose route is in the cross
      product and whose month pair has `outbound <= inbound < n`. */
  lemma {:induction false} AllQueriesAre(origins: seq<string>, dests: seq<string>, n: nat, q: Query)
    ensures q in AllQueries(origins, dests, n) <==>
      q.from in origins && q.to in dests && q.outbound <= q.inbound < n
  {
    if origins != [] {
      var front, from := origins[..|origins| - 1], origins[|origins| - 1];
      assert origins == front + [from];
      AllQueriesAre(front, dests, n, q);
      DestQueriesAre(from, dests, n, q);
    }
  }

  /** Every month pair issued has its inbound month not before its outbound
      month, and both inside the month list. */
  lemma {:induction false} QueriesOrdered(origins: seq<string>, dests: seq<string>, n: nat)
    ensures forall q :: q in AllQueries(origins, dests, n) ==> q.outbound <= q.inbound < n
  {
    forall q | q in AllQueries(origins, dests, n) ensures q.outbound <= q.inbound < n {
      AllQueriesAre(origins, dests, n, q);
    }
  }

  /** The cache keys in the order the generator loops visit the routes. */
  function RouteKeys(origins: seq<string>, dests: seq<string>): seq<string>
  {
    if origins == [] then []
    else RouteKeys(origins[..|origins| - 1], dests) + OriginKeys(origins[|origins| - 1], dests)
  }

  function OriginKeys(from: string, dests: seq<string>): seq<string>
  {
    if dests == [] then []
    else OriginKeys(from, dests[..|dests| - 1]) + [CacheKey(from, dests[|dests| - 1])]
  }

  lemma {:induction false} RouteKeysAre(origins: seq<string>, dests: seq<string>, k: string)
    ensures k in RouteKeys(origins, dests) <==> exists f, t :: f in origins && t in dests && k == CacheKey(f, t)
  {
    if origins != [] {
      var front, from := origins[..|origins| - 1], origins[|origins| - 1];
      RouteKeysAre(front, dests, k);
      OriginKeysAre(from, dests, k);
      if k in RouteKeys(origins, dests) {
        if k in RouteKeys(front, dests) {
          var f, t :| f in front && t in dests && k == CacheKey(f, t);
          assert f in origins;
        } else {
          var t :| t in dests && k == CacheKey(from, t);
          assert from in origins;
        }
      } else {
        forall f, t | f in origins && t in dests ensures k != CacheKey(f, t) {
          if f != from { assert f in front; }
        }
      }
    }
  }

  lemma {:induction false} OriginKeysAre(from: string, dests: seq<string>, k: string)
    ensures k in OriginKeys(from, dests) <==> exists t :: t in dests && k == CacheKey(from, t)
  {
    if dests != [] {
      var front, to := dests[..|dests| - 1], dests[|dests| - 1];
      assert dests == front + [to];
      OriginKeysAre(from, front, k);
    }
  }

  /** A JavaScript object keeps its keys in the order they were first set. */
  function AddKeys(keys: seq<string>, more: seq<string>): seq<string>
  {
    if more == [] then keys
    else
      var ks := AddKeys(keys, more[..|more| - 1]);
      if more[|more| - 1] in ks then ks else ks + [more[|more| - 1]]
  }
}
