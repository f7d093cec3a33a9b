/** Result sets: listings of a set of rows in an order the server chooses. */
module Listing {
  import opened Wrappers

  /** `s` shows every member of `members` exactly once. */
  ghost predicate Lists<T>(s: seq<T>, members: set<T>) {
    && Distinct(s)
    && (forall x :: x in s ==> x in members)
    && (forall i :: 0 <= i < |s| ==> s[i] in members)
    && (forall x :: x in members ==> x in s)
  }

  lemma {:induction false} ListingLength<T>(s: seq<T>, members: set<T>)
    requires Lists(s, members)
    ensures |s| == |members|
  {
    if s != [] {
      forall x | x in members - {s[0]} ensures x in s[1..] {
        assert s == [s[0]] + s[1..];
      }
      ListingLength(s[1..], members - {s[0]});
    } else {
      assert members == {};
    }
  }

  ghost predicate Descending<T>(s: seq<T>, key: T -> int) {
    forall i, j :: 0 <= i < j < |s| ==> key(s[i]) >= key(s[j])
  }

  /** What the server may return for ORDER BY key DESC: ties are in any order. */
  ghost predicate Ordered<T>(s: seq<T>, members: set<T>, key: T -> int) {
    Lists(s, members) && Descending(s, key)
  }

  /** LIMIT limit OFFSET offset. */
  function Page<T>(order: seq<T>, limit: nat, offset: nat): seq<T> {
    order[Min(offset, |order|)..Min(offset + limit, |order|)]
  }

  /** LIMIT without OFFSET keeps the largest: its length is min(limit, n), it descends,
      and nothing left out exceeds anything kept. */
  lemma LimitKeepsLargest<T>(order: seq<T>, members: set<T>, key: T -> int, limit: nat)
    requires Ordered(order, members, key)
    ensures var kept := Page(order, limit, 0);
            && |kept| == Min(limit, |members|)
            && Descending(kept, key)
            && (forall x, y :: x in kept && y in members && y !in kept ==> key(y) <= key(x))
  {
    ListingLength(order, members);
    var kept := Page(order, limit, 0);
    forall x, y | x in kept && y in members && y !in kept ensures key(y) <= key(x) {
      var i :| 0 <= i < |kept| && kept[i] == x;
      var j :| 0 <= j < |order| && order[j] == y;
      assert j >= |kept|;
    }
  }

  // ---------------------------------------------------------------------------------
  // Reading page after page
  // ---------------------------------------------------------------------------------

  /** The pages at offsets j*limit, (j+1)*limit, ..., each cut from the order the server
      chose for that request. */
  function Pages(orders: seq<seq<int>>, limit: nat, j: nat): seq<int> {
    if orders == [] then [] else Page(orders[0], limit, j * limit) + Pages(orders[1..], limit, j + 1)
  }

  /** With one fixed order the pages are consecutive pieces of it. */
  lemma {:induction false} FixedOrderPages(order: seq<int>, limit: nat, j: nat, k: nat)
    ensures j * limit <= (j + k) * limit
    ensures Pages(Repeat(order, k), limit, j) ==
            order[Min(j * limit, |order|)..Min((j + k) * limit, |order|)]
    decreases k
  {
    Monotone(j, j + k, limit);
    if k > 0 {
      FixedOrderPages(order, limit, j + 1, k - 1);
      assert Repeat(order, k)[1..] == Repeat(order, k - 1);
      assert (j + 1) * limit == j * limit + limit;
    }
  }

  lemma {:induction false} Monotone(a: nat, b: nat, limit: nat)
    requires a <= b
    ensures a * limit <= b * limit
  {
    if a < b {
      Monotone(a, b - 1, limit);
      assert b * limit == (b - 1) * limit + limit;
    }
  }

  /** Paging is a partition: enough pages of one order, joined, are that order. */
  lemma FixedOrderPartition(order: seq<int>, limit: nat, k: nat)
    requires k * limit >= |order|
    ensures Pages(Repeat(order, k), limit, 0) == order
  {
    FixedOrderPages(order, limit, 0, k);
  }

  /** Position `m` does not cut through a run of equal keys. */
  predicate NoTieAt(order: seq<int>, key: int -> int, m: nat) {
    0 < m < |order| ==> key(order[m - 1]) != key(order[m])
  }

  function Elems(s: seq<int>): set<int> { set x | x in s }

  lemma {:induction false} ElemsCardinality(s: seq<int>)
    requires Distinct(s)
    ensures |Elems(s)| == |s|
  {
    ListingLength(s, Elems(s));
  }

  /** Where no tie is cut, every order the server may choose has the same rows before the cut. */
  lemma PrefixIsFixed(a: seq<int>, b: seq<int>, members: set<int>, key: int -> int, m: nat)
    requires Ordered(a, members, key) && Ordered(b, members, key)
    requires m <= |a| && NoTieAt(a, key, m)
    ensures |b| == |a| && Elems(b[..m]) == Elems(a[..m])
  {
    ListingLength(a, members);
    ListingLength(b, members);
    if 0 < m < |a| {
      var above := Elems(a[..m]);
      forall x | x in members ensures x in above <==> key(x) > key(a[m]) {
        var i :| 0 <= i < |a| && a[i] == x;
        if i < m {
          assert a[..m][i] == x;
        } else {
          assert key(x) <= key(a[m]);
          assert x !in a[..m];
        }
      }
      AboveIsPrefix(b, above, key, key(a[m]));
      ElemsCardinality(a[..m]);
    } else {
      assert a[..m] == [] || a[..m] == a;
      assert b[..m] == [] || b[..m] == b;
    }
  }

  lemma AboveIsPrefix(b: seq<int>, above: set<int>, key: int -> int, bound: int)
    requires Distinct(b) && Descending(b, key)
    requires forall x :: x in b ==> (x in above <==> key(x) > bound)
    requires forall x :: x in above ==> x in b
    ensures |above| <= |b| && Elems(b[..|above|]) == above
  {
    var c := 0;
    while c < |b| && key(b[c]) > bound
      invariant c <= |b|
      invariant forall i :: 0 <= i < c ==> key(b[i]) > bound
    {
      c := c + 1;
    }
    forall x | x in above ensures x in b[..c] {
      var i :| 0 <= i < |b| && b[i] == x;
      assert i < c;
      assert b[..c][i] == x;
    }
    forall x | x in b[..c] ensures x in above {
      var i :| 0 <= i < c && b[..c][i] == x;
      assert b[i] == x;
    }
    assert Elems(b[..c]) == above;
    ElemsCardinality(b[..c]);
  }

  /** Each request is answered in some order the server may choose. */
  ghost predicate Admissible(orders: seq<seq<int>>, members: set<int>, key: int -> int) {
    forall i :: 0 <= i < |orders| ==> Ordered(orders[i], members, key)
  }

  lemma PageIsDifference(b: seq<int>, limit: nat, offset: nat)
    requires Distinct(b)
    ensures var lo, hi := Min(offset, |b|), Min(offset + limit, |b|);
            && Distinct(Page(b, limit, offset))
            && Elems(Page(b, limit, offset)) == Elems(b[..hi]) - Elems(b[..lo])
  {
    var lo, hi := Min(offset, |b|), Min(offset + limit, |b|);
    assert b[..hi] == b[..lo] + b[lo..hi];
    forall x | x in b[lo..hi] ensures x !in b[..lo] {
      var i :| 0 <= i < hi - lo && b[lo..hi][i] == x;
      assert b[lo + i] == x;
    }
  }

  lemma PageBetweenCuts(a: seq<int>, b: seq<int>, members: set<int>, key: int -> int, limit: nat, offset: nat)
    requires Ordered(a, members, key) && Ordered(b, members, key)
    requires NoTieAt(a, key, offset) && NoTieAt(a, key, offset + limit)
    ensures var lo, hi := Min(offset, |a|), Min(offset + limit, |a|);
            && Distinct(Page(b, limit, offset))
            && Elems(Page(b, limit, offset)) == Elems(a[..hi]) - Elems(a[..lo])
            && Elems(a[..lo]) <= Elems(a[..hi]) <= members
  {
    var lo, hi := Min(offset, |a|), Min(offset + limit, |a|);
    PrefixIsFixed(a, b, members, key, lo);
    PrefixIsFixed(a, b, members, key, hi);
    PageIsDifference(b, limit, offset);
    assert a[..hi] == a[..lo] + a[lo..hi];
    assert forall x :: x in a[..hi] ==> x in a;
  }

  lemma NextOffset(j: nat, limit: nat)
    ensures (j + 1) * limit == j * limit + limit
  {
  }

  predicate CutsNoTie(a: seq<int>, key: int -> int, limit: nat, j: nat) { NoTieAt(a, key, j * limit) }

  lemma {:induction false} PagesWithoutTies(orders: seq<seq<int>>, a: seq<int>, members: set<int>,
                                            key: int -> int, limit: nat, j: nat, k: nat)
    requires Ordered(a, members, key) && Admissible(orders, members, key)
    requires k == j + |orders| && k * limit >= |a|
    requires forall i :: j <= i <= k ==> CutsNoTie(a, key, limit, i)
    ensures Distinct(Pages(orders, limit, j))
    ensures Elems(Pages(orders, limit, j)) == members - Elems(a[..Min(j * limit, |a|)])
  {
    if orders == [] {
      assert a[..|a|] == a;
    } else {
      PagesWithoutTies(orders[1..], a, members, key, limit, j + 1, k);
      assert CutsNoTie(a, key, limit, j) && CutsNoTie(a, key, limit, j + 1);
      AddPage(orders, a, members, key, limit, j);
    }
  }

  lemma AddPage(orders: seq<seq<int>>, a: seq<int>, members: set<int>, key: int -> int, limit: nat, j: nat)
    requires Ordered(a, members, key) && orders != [] && Ordered(orders[0], members, key)
    requires CutsNoTie(a, key, limit, j) && CutsNoTie(a, key, limit, j + 1)
    requires Distinct(Pages(orders[1..], limit, j + 1))
    requires Elems(Pages(orders[1..], limit, j + 1)) == members - Elems(a[..Min((j + 1) * limit, |a|)])
    ensures Distinct(Pages(orders, limit, j))
    ensures Elems(Pages(orders, limit, j)) == members - Elems(a[..Min(j * limit, |a|)])
  {
    NextOffset(j, limit);
    JoinPage(Pages(orders[1..], limit, j + 1), a, orders[0], members, key, limit, j * limit);
  }

  lemma JoinPage(rest: seq<int>, a: seq<int>, b: seq<int>, members: set<int>, key: int -> int, limit: nat, offset: nat)
    requires Ordered(a, members, key) && Ordered(b, members, key)
    requires NoTieAt(a, key, offset) && NoTieAt(a, key, offset + limit)
    requires Distinct(rest) && Elems(rest) == members - Elems(a[..Min(offset + limit, |a|)])
    ensures Distinct(Page(b, limit, offset) + rest)
    ensures Elems(Page(b, limit, offset) + rest) == members - Elems(a[..Min(offset, |a|)])
  {
    PageBetweenCuts(a, b, members, key, limit, offset);
    JoinDistinct(Page(b, limit, offset), rest);
  }

  lemma JoinDistinct(s: seq<int>, t: seq<int>)
    requires Distinct(s) && Distinct(t) && Elems(s) !! Elems(t)
    ensures Distinct(s + t) && Elems(s + t) == Elems(s) + Elems(t)
  {
    forall i, j | 0 <= i < j < |s + t| ensures (s + t)[i] != (s + t)[j] {
      if i < |s| <= j {
        assert (s + t)[i] in Elems(s) && (s + t)[j] in Elems(t);
      }
    }
  }

  lemma {:induction false} PagesOfConcat(first: seq<seq<int>>, second: seq<seq<int>>, limit: nat, j: nat)
    ensures Pages(first + second, limit, j) == Pages(first, limit, j) + Pages(second, limit, j + |first|)
  {
    if first == [] {
      assert first + second == second;
    } else {
      assert (first + second)[1..] == first[1..] + second;
      PagesOfConcat(first[1..], second, limit, j + 1);
    }
  }

  function Swapped(a: seq<int>, m: nat): seq<int>
    requires 0 < m < |a|
  {
    a[m - 1 := a[m]][m := a[m - 1]]
  }

  lemma SwapTied(a: seq<int>, members: set<int>, key: int -> int, m: nat)
    requires Ordered(a, members, key) && 0 < m < |a| && key(a[m - 1]) == key(a[m])
    ensures Ordered(Swapped(a, m), members, key)
  {
    SwapLists(a, members, m);
    SwapDescends(a, key, m);
  }

  function SwapIndex(m: int, i: int): int { if i == m - 1 then m else if i == m then m - 1 else i }

  lemma SwappedAt(a: seq<int>, m: nat)
    requires 0 < m < |a|
    ensures |Swapped(a, m)| == |a|
    ensures forall i :: 0 <= i < |a| ==> Swapped(a, m)[i] == a[SwapIndex(m, i)]
  {
  }

  lemma SwapLists(a: seq<int>, members: set<int>, m: nat)
    requires Lists(a, members) && 0 < m < |a|
    ensures Lists(Swapped(a, m), members)
  {
    var b := Swapped(a, m);
    SwappedAt(a, m);
    forall x | x in members ensures x in b {
      var i :| 0 <= i < |a| && a[i] == x;
      assert b[SwapIndex(m, i)] == x;
    }
  }

  lemma SwapDescends(a: seq<int>, key: int -> int, m: nat)
    requires Descending(a, key) && 0 < m < |a| && key(a[m - 1]) == key(a[m])
    ensures Descending(Swapped(a, m), key)
  {
    var b := Swapped(a, m);
    forall i, j | 0 <= i < j < |b| ensures key(b[i]) >= key(b[j]) {
      SwappedAt(a, m);
      if SwapIndex(m, i) > SwapIndex(m, j) {
        assert i == m - 1 && j == m;
      }
    }
  }

  /** A tie across a page boundary lets the server show a row twice and hide another. */
  lemma TieBreaksPaging(a: seq<int>, members: set<int>, key: int -> int, limit: nat, j: nat, k: nat)
    returns (orders: seq<seq<int>>)
    requires Ordered(a, members, key) && limit > 0
    requires 0 < j < k && !CutsNoTie(a, key, limit, j)
    ensures |orders| == k && Admissible(orders, members, key)
    ensures !Distinct(Pages(orders, limit, 0))
  {
    var b := Swapped(a, j * limit);
    SwapTied(a, members, key, j * limit);
    orders := Repeat(a, j) + Repeat(b, k - j);
    PagesShareRow(a, b, limit, j, k);
  }

  lemma LastOfPages(a: seq<int>, limit: nat, j: nat)
    requires 0 < j * limit < |a|
    ensures var before := Pages(Repeat(a, j), limit, 0);
            before != [] && before[|before| - 1] == a[j * limit - 1]
  {
    FixedOrderPages(a, limit, 0, j);
  }

  lemma PagesShareRow(a: seq<int>, b: seq<int>, limit: nat, j: nat, k: nat)
    requires limit > 0 && 0 < j < k && 0 < j * limit < |a| == |b|
    requires b[j * limit] == a[j * limit - 1]
    ensures !Distinct(Pages(Repeat(a, j) + Repeat(b, k - j), limit, 0))
  {
    PagesOfConcat(Repeat(a, j), Repeat(b, k - j), limit, 0);
    LastOfPages(a, limit, j);
    NextPageStarts(b, limit, j, k);
    SharedElement(Pages(Repeat(a, j), limit, 0), Pages(Repeat(b, k - j), limit, j), a[j * limit - 1]);
  }

  lemma NextPageStarts(b: seq<int>, limit: nat, j: nat, k: nat)
    requires limit > 0 && j < k && j * limit < |b|
    ensures Pages(Repeat(b, k - j), limit, j) != [] && Pages(Repeat(b, k - j), limit, j)[0] == b[j * limit]
  {
    FixedOrderPages(b, limit, j, k - j);
    Monotone(j + 1, k, limit);
    assert (j + 1) * limit == j * limit + limit;
  }

  lemma SharedElement(s: seq<int>, t: seq<int>, x: int)
    requires s != [] && t != [] && s[|s| - 1] == x && t[0] == x
    ensures !Distinct(s + t)
  {
    assert (s + t)[|s| - 1] == (s + t)[|s|];
  }

  /** Exactly when reading k pages is a partition of the rows, whatever order the server
      picks each time: no two rows with equal keys may meet across a page boundary. */
  lemma PagingIsPartitionIffNoTieIsCut(a: seq<int>, members: set<int>, key: int -> int, limit: nat, k: nat)
    requires Ordered(a, members, key) && limit > 0 && k * limit >= |a|
    ensures (forall orders :: |orders| == k && Admissible(orders, members, key)
                              ==> Lists(Pages(orders, limit, 0), members))
            <==> (forall j :: 0 < j < k ==> CutsNoTie(a, key, limit, j))
  {
    if j :| 0 < j < k && !CutsNoTie(a, key, limit, j) {
      var orders := TieBreaksPaging(a, members, key, limit, j, k);
      assert !Lists(Pages(orders, limit, 0), members);
    } else {
      forall orders | |orders| == k && Admissible(orders, members, key)
        ensures Lists(Pages(orders, limit, 0), members)
      {
        assert CutsNoTie(a, key, limit, 0) && CutsNoTie(a, key, limit, k);
        PagesWithoutTies(orders, a, members, key, limit, 0, k);
        assert Elems(a[..0]) == {};
        assert forall x :: x in Pages(orders, limit, 0) <==> x in Elems(Pages(orders, limit, 0));
      }
    }
  }
}
