/** `insertToTopFive`: the list of at most five cheapest flights kept per
    cache key, ordered ascending by price. */
module TopFive {
  import opened Wrappers
  import opened Prices
  import opened Flights

  /** How many flights a list keeps. */
  const Capacity: nat := 5

  predicate SortedByPrice(s: seq<Entry>)
  {
    forall i, j :: 0 <= i < j < |s| ==> LessEq(s[i].price, s[j].price)
  }

  lemma {:induction false} SortedCons(h: Entry, t: seq<Entry>)
    requires SortedByPrice(t)
    requires forall y :: y in t ==> LessEq(h.price, y.price)
    ensures SortedByPrice([h] + t)
  {
    forall i, j | 0 <= i < j < |[h] + t| ensures LessEq(([h] + t)[i].price, ([h] + t)[j].price) {
      if i > 0 {
        assert ([h] + t)[i] == t[i - 1] && ([h] + t)[j] == t[j - 1];
      } else {
        assert ([h] + t)[j] == t[j - 1];
        assert t[j - 1] in t;
      }
    }
  }

  /** Where `InsertByPrice` puts `x` in a sorted list: after every entry that
      is not more expensive than `x`. */
  function Position(s: seq<Entry>, x: Entry): (k: nat)
    ensures k <= |s|
  {
    if s == [] || Less(x.price, s[0].price) then 0 else 1 + Position(s[1..], x)
  }

  /** An entry no entry is more expensive than goes at the end. */
  lemma {:induction false} PositionAtEnd(s: seq<Entry>, x: Entry)
    requires forall i :: 0 <= i < |s| ==> !Less(x.price, s[i].price)
    ensures Position(s, x) == |s|
  {
    if s != [] {
      assert !Less(x.price, s[0].price);
      assert forall i :: 0 <= i < |s[1..]| ==> s[1..][i] == s[i + 1];
      PositionAtEnd(s[1..], x);
    }
  }

  /** The head of a sorted list is not above anything `InsertByPrice` puts
      after it. */
  lemma {:induction false} HeadBelowRest(s: seq<Entry>, x: Entry, rest: seq<Entry>)
    requires SortedByPrice(s) && s != [] && !Less(x.price, s[0].price)
    requires multiset(rest) == multiset(s[1..]) + multiset{x}
    ensures forall y :: y in rest ==> LessEq(s[0].price, y.price)
  {
    forall y | y in rest ensures LessEq(s[0].price, y.price) {
      assert y in multiset(rest);
      if y != x {
        assert y in multiset(s[1..]);
        var i :| 0 <= i < |s[1..]| && s[1..][i] == y;
        assert s[i + 1] == y;
      }
    }
  }

  /** The tail of a sorted list is sorted. */
  lemma {:induction false} SortedTail(s: seq<Entry>)
    requires SortedByPrice(s) && s != []
    ensures SortedByPrice(s[1..])
  {
    forall i, j | 0 <= i < j < |s[1..]| ensures LessEq(s[1..][i].price, s[1..][j].price) {
      assert s[1..][i] == s[i + 1] && s[1..][j] == s[j + 1];
    }
  }

  /** One step of a stable sort: `x` goes before the first entry strictly
      more expensive than it, so after every entry of equal price. */
  function InsertByPrice(s: seq<Entry>, x: Entry): (r: seq<Entry>)
    ensures |r| == |s| + 1
    ensures multiset(r) == multiset(s) + multiset{x}
    ensures SortedByPrice(s) ==> SortedByPrice(r)
  {
    if s == [] then [x]
    else if Less(x.price, s[0].price) then
      assert SortedByPrice(s) ==> SortedByPrice([x] + s) by {
        if SortedByPrice(s) {
          forall y | y in s ensures LessEq(x.price, y.price) {
            var i :| 0 <= i < |s| && s[i] == y;
          }
          SortedCons(x, s);
        }
      }
      [x] + s
    else
      var rest := InsertByPrice(s[1..], x);
      assert s == [s[0]] + s[1..];
      assert SortedByPrice(s) ==> SortedByPrice([s[0]] + rest) by {
        if SortedByPrice(s) {
          SortedTail(s);
          HeadBelowRest(s, x, rest);
          SortedCons(s[0], rest);
        }
      }
      [s[0]] + rest
  }

  /** `arr.sort((a, b) => a.price - b.price)`: JavaScript's sort is stable,
      and a stable sort is an insertion sort. */
  function SortByPrice(s: seq<Entry>): (r: seq<Entry>)
    ensures |r| == |s|
    ensures multiset(r) == multiset(s)
    ensures SortedByPrice(r)
  {
    if s == [] then []
    else
      assert s == s[..|s| - 1] + [s[|s| - 1]];
      InsertByPrice(SortByPrice(s[..|s| - 1]), s[|s| - 1])
  }

  /** The argument of `insertToTopFive`: `None` for a missing flight, and a
      price of `None` when `typeof flight.price !== 'number'`. */
  datatype Offer = Offer(flight: Flight, price: Option<Price>)

  /** The entry an offer would occupy, when it has a numeric price. */
  function Priced(offer: Option<Offer>): (e: Option<Entry>)
    ensures e.Some? <==> offer.Some? && offer.value.price.Some?
    ensures e.Some? ==> e.value.flight == offer.value.flight && Some(e.value.price) == offer.value.price
  {
    if offer.Some? && offer.value.price.Some? then
      Some(Entry(offer.value.flight, offer.value.price.value))
    else None
  }

  /** The list after `insertToTopFive(arr, flight)`. */
  function Insert(arr: seq<Entry>, offer: Option<Offer>): (r: seq<Entry>)
    // a missing flight or a non-numeric price changes nothing
    ensures Priced(offer).None? ==> r == arr
    // below capacity the flight is added
    ensures Priced(offer).Some? && |arr| < Capacity ==>
      |r| == |arr| + 1 && multiset(r) == multiset(arr) + multiset{Priced(offer).value}
    // at capacity, a price not strictly below the last entry's is discarded
    ensures Priced(offer).Some? && |arr| >= Capacity && !Less(Priced(offer).value.price, arr[|arr| - 1].price) ==>
      r == arr
    // at capacity, a strictly cheaper flight replaces the last entry
    ensures Priced(offer).Some? && |arr| >= Capacity && Less(Priced(offer).value.price, arr[|arr| - 1].price) ==>
      |r| == |arr| && multiset(r) == multiset(arr) - multiset{arr[|arr| - 1]} + multiset{Priced(offer).value}
    ensures SortedByPrice(arr) ==> SortedByPrice(r)
    ensures |arr| <= Capacity ==> |r| <= Capacity
  {
    match Priced(offer)
    case None => arr
    case Some(e) =>
      if |arr| < Capacity then SortByPrice(arr + [e])
      else if Less(e.price, arr[|arr| - 1].price) then
        assert arr == arr[..|arr| - 1] + [arr[|arr| - 1]];
        SortByPrice(arr[..|arr| - 1] + [e])
      else arr
  }

  /** The three ways `insertToTopFive` treats a flight with a numeric
      price, as sort calls on the list. */
  lemma {:induction false} InsertUnfolds(arr: seq<Entry>, offer: Option<Offer>, e: Entry)
    requires Priced(offer) == Some(e)
    ensures |arr| < Capacity ==> Insert(arr, offer) == SortByPrice(arr + [e])
    ensures |arr| >= Capacity && Less(e.price, arr[|arr| - 1].price) ==>
      Insert(arr, offer) == SortByPrice(arr[|arr| - 1 := e])
    ensures |arr| >= Capacity && !Less(e.price, arr[|arr| - 1].price) ==> Insert(arr, offer) == arr
  {
    if |arr| >= Capacity {
      assert arr[|arr| - 1 := e] == arr[..|arr| - 1] + [e];
    }
  }

  lemma {:induction false} InsertAtEnd(s: seq<Entry>, x: Entry)
    requires SortedByPrice(s + [x])
    ensures InsertByPrice(s, x) == s + [x]
  {
    if s != [] {
      assert (s + [x])[0] == s[0] && (s + [x])[|s|] == x;
      assert s[1..] + [x] == (s + [x])[1..];
      InsertAtEnd(s[1..], x);
    }
  }

  /** Sorting a list that is already sorted leaves it as it is. */
  lemma {:induction false} SortSortedIsIdentity(s: seq<Entry>)
    requires SortedByPrice(s)
    ensures SortByPrice(s) == s
  {
    if s != [] {
      assert s == s[..|s| - 1] + [s[|s| - 1]];
      SortSortedIsIdentity(s[..|s| - 1]);
      InsertAtEnd(s[..|s| - 1], s[|s| - 1]);
    }
  }

  /** In a sorted list, the entries before `Position(s, x)` are not more
      expensive than `x` and those from it on are strictly more expensive. */
  lemma {:induction false} PositionBounds(s: seq<Entry>, x: Entry)
    requires SortedByPrice(s)
    ensures forall i :: 0 <= i < Position(s, x) ==> LessEq(s[i].price, x.price)
    ensures forall i :: Position(s, x) <= i < |s| ==> Less(x.price, s[i].price)
  {
    if s == [] {
    } else if Less(x.price, s[0].price) {
      forall i | 0 <= i < |s| ensures Less(x.price, s[i].price) {
        if i > 0 { assert LessEq(s[0].price, s[i].price); }
      }
    } else {
      var t := s[1..];
      SortedTail(s);
      PositionBounds(t, x);
      var k := Position(t, x);
      assert Position(s, x) == k + 1;
      forall i | 0 <= i < k + 1 ensures LessEq(s[i].price, x.price) {
        if i > 0 { assert s[i] == t[i - 1]; }
      }
      forall i | k + 1 <= i < |s| ensures Less(x.price, s[i].price) {
        assert s[i] == t[i - 1];
      }
    }
  }

  /** `InsertByPrice` puts `x` at `Position(s, x)`. */
  lemma {:induction false} InsertByPriceAt(s: seq<Entry>, x: Entry)
    ensures var k := Position(s, x); InsertByPrice(s, x) == s[..k] + [x] + s[k..]
  {
    if s == [] {
      assert InsertByPrice(s, x) == [x];
    } else if Less(x.price, s[0].price) {
      assert Position(s, x) == 0;
      assert s[..0] + [x] + s[0..] == [x] + s;
    } else {
      var t := s[1..];
      InsertByPriceAt(t, x);
      var k := Position(t, x);
      assert Position(s, x) == k + 1;
      calc {
        InsertByPrice(s, x);
        [s[0]] + InsertByPrice(t, x);
        [s[0]] + (t[..k] + [x] + t[k..]);
        { assert [s[0]] + t[..k] == s[..k + 1] && t[k..] == s[k + 1..]; }
        s[..k + 1] + [x] + s[k + 1..];
      }
    }
  }

  /** In a sorted list, `InsertByPrice` puts `x` after every entry that is not
      more expensive and before every entry that is strictly more expensive. */
  lemma InsertByPriceSplits(s: seq<Entry>, x: Entry)
    requires SortedByPrice(s)
    ensures var k := Position(s, x);
      && InsertByPrice(s, x) == s[..k] + [x] + s[k..]
      && (forall i :: 0 <= i < k ==> LessEq(s[i].price, x.price))
      && (forall i :: k <= i < |s| ==> Less(x.price, s[i].price))
  {
    PositionBounds(s, x);
    InsertByPriceAt(s, x);
  }


  /** Since the list only ever changes through `Insert`, it is always sorted,
      and the re-sort after `push` or after overwriting the last slot places
      the new flight after every entry of equal price: an earlier flight keeps
      its place ahead of a later one of the same price. */
  lemma {:induction false} InsertIsStable(arr: seq<Entry>, offer: Option<Offer>)
    requires SortedByPrice(arr) && Priced(offer).Some?
    ensures var e := Priced(offer).value;
      && (|arr| < Capacity ==> Insert(arr, offer) == InsertByPrice(arr, e))
      && (|arr| >= Capacity && Less(e.price, arr[|arr| - 1].price) ==>
            Insert(arr, offer) == InsertByPrice(arr[..|arr| - 1], e))
  {
    var e := Priced(offer).value;
    if |arr| < Capacity {
      SortSortedIsIdentity(arr);
      assert (arr + [e])[..|arr|] == arr;
    } else if Less(e.price, arr[|arr| - 1].price) {
      var front := arr[..|arr| - 1];
      SortSortedIsIdentity(front);
      assert (front + [e])[..|front|] == front;
    }
  }

  /** A list that is empty at the start of a refresh and receives the
      `entries` one by one, in this order. */
  function InsertAll(arr: seq<Entry>, entries: seq<Entry>): (r: seq<Entry>)
  {
    if entries == [] then arr
    else
      var last := entries[|entries| - 1];
      Insert(InsertAll(arr, entries[..|entries| - 1]), Some(Offer(last.flight, Some(last.price))))
  }

  /** `r` is what a list may hold after receiving `xs`: min(5, n) of them,
      sorted, all of them when there were at most five, and none more
      expensive than a flight that was discarded. */
  ghost predicate RetainsCheapest(xs: seq<Entry>, r: seq<Entry>)
  {
    && |r| == (if |xs| <= Capacity then |xs| else Capacity)
    && SortedByPrice(r)
    && multiset(r) <= multiset(xs)
    && (|xs| <= Capacity ==> multiset(r) == multiset(xs))
    && (forall y, d :: y in r && d in multiset(xs) - multiset(r) ==> LessEq(y.price, d.price))
  }

  lemma {:induction false} KeepsCheapestAppend(xs: seq<Entry>, r: seq<Entry>, e: Entry)
    requires RetainsCheapest(xs, r) && |r| < Capacity
    ensures RetainsCheapest(xs + [e], Insert(r, Some(Offer(e.flight, Some(e.price)))))
  {
    assert multiset(xs + [e]) == multiset(xs) + multiset{e};
  }

  /** After a replacement, every retained entry is still not more expensive
      than any entry seen and not retained. */
  lemma {:induction false} ReplaceKeepsOrder(xs: seq<Entry>, r: seq<Entry>, e: Entry)
    requires RetainsCheapest(xs, r) && |r| >= Capacity && Less(e.price, r[|r| - 1].price)
    ensures var r' := Insert(r, Some(Offer(e.flight, Some(e.price))));
      forall y, d :: y in r' && d in multiset(xs + [e]) - multiset(r') ==> LessEq(y.price, d.price)
  {
    var r' := Insert(r, Some(Offer(e.flight, Some(e.price))));
    var last := r[|r| - 1];
    var x, x' := multiset(xs), multiset(xs + [e]);
    assert x' == x + multiset{e};
    assert multiset(r') == multiset(r) - multiset{last} + multiset{e};
    forall y, d | y in r' && d in x' - multiset(r') ensures LessEq(y.price, d.price) {
      assert y in multiset(r');
      assert y in multiset(r) || y == e;
      assert d in x - multiset(r) || d == last by {
        if d != last {
          assert (x' - multiset(r'))[d] > 0;
          assert (x - multiset(r))[d] > 0;
        }
      }
      var i :| 0 <= i < |r| && r[i] == last;
      if y != e {
        var j :| 0 <= j < |r| && r[j] == y;
      }
    }
  }

  lemma {:induction false} KeepsCheapestReplace(xs: seq<Entry>, r: seq<Entry>, e: Entry)
    requires RetainsCheapest(xs, r) && |r| >= Capacity && Less(e.price, r[|r| - 1].price)
    ensures RetainsCheapest(xs + [e], Insert(r, Some(Offer(e.flight, Some(e.price)))))
  {
    var r' := Insert(r, Some(Offer(e.flight, Some(e.price))));
    var last := r[|r| - 1];
    var x, x' := multiset(xs), multiset(xs + [e]);
    assert x' == x + multiset{e};
    assert last in multiset(r);
    assert multiset(r') == multiset(r) - multiset{last} + multiset{e};
    assert multiset(r') <= x' by {
      forall z ensures multiset(r')[z] <= x'[z] {
        assert multiset(r)[z] <= x[z];
      }
    }
    ReplaceKeepsOrder(xs, r, e);
  }


  lemma {:induction false} KeepsCheapestDiscard(xs: seq<Entry>, r: seq<Entry>, e: Entry)
    requires RetainsCheapest(xs, r) && |r| >= Capacity && !Less(e.price, r[|r| - 1].price)
    ensures RetainsCheapest(xs + [e], Insert(r, Some(Offer(e.flight, Some(e.price)))))
  {
    var x, x' := multiset(xs), multiset(xs + [e]);
    assert x' == x + multiset{e};
    forall y, d | y in r && d in x' - multiset(r) ensures LessEq(y.price, d.price) {
      assert d in x - multiset(r) || d == e by {
        if d != e {
          assert (x' - multiset(r))[d] > 0;
          assert (x - multiset(r))[d] > 0;
        }
      }
      var j :| 0 <= j < |r| && r[j] == y;
    }
  }

  /** Whatever the order in which the flights arrive, the list ends up
      holding min(5, n) of the n offered flights, sorted, and no discarded
      flight is cheaper than any retained one. */
  lemma {:induction false} KeepsCheapest(xs: seq<Entry>)
    ensures RetainsCheapest(xs, InsertAll([], xs))
  {
    if xs != [] {
      var front, e := xs[..|xs| - 1], xs[|xs| - 1];
      assert xs == front + [e];
      KeepsCheapest(front);
      var r0 := InsertAll([], front);
      if |r0| < Capacity {
        KeepsCheapestAppend(front, r0, e);
      } else if Less(e.price, r0[|r0| - 1].price) {
        KeepsCheapestReplace(front, r0, e);
      } else {
        KeepsCheapestDiscard(front, r0, e);
      }
    }
  }
}
