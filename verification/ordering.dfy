/**
 Arranging payloads by their order, as the hold-back queue's call to
 std::sort does with a comparison on the order field. The sort is not
 stable, so only the two facts that hold of every outcome are stated:
 the result is ordered and is a permutation of the input.
 */
module Ordering {
  import opened Payloads

  predicate SortedByOrder(q: seq<Payload>) {
    forall i, j :: 0 <= i < j < |q| ==> q[i].order <= q[j].order
  }

  /** `arranged` is one admissible outcome of sorting `q` by order. */
  predicate IsSortedPermutation(q: seq<Payload>, arranged: seq<Payload>) {
    SortedByOrder(arranged) && multiset(arranged) == multiset(q)
  }

  /** Places `p` into an already ordered queue. */
  function InsertByOrder(p: Payload, q: seq<Payload>): (r: seq<Payload>)
    requires SortedByOrder(q)
    ensures IsSortedPermutation(q + [p], r)
    decreases |q|
  {
    if q == [] then [p]
    else if p.order <= q[0].order then
      assert multiset([p] + q) == multiset(q + [p]);
      [p] + q
    else
      var rest := InsertByOrder(p, q[1..]);
      ConsSorted(q[0], p, q[1..], rest);
      assert q + [p] == [q[0]] + (q[1..] + [p]);
      [q[0]] + rest
  }

  /** A payload ordered no later than everything in `rest` can go in front of it. */
  lemma ConsSorted(first: Payload, p: Payload, tail: seq<Payload>, rest: seq<Payload>)
    requires SortedByOrder([first] + tail)
    requires first.order <= p.order
    requires IsSortedPermutation(tail + [p], rest)
    ensures SortedByOrder([first] + rest)
  {
    forall j | 0 <= j < |rest|
      ensures first.order <= rest[j].order
    {
      assert rest[j] in multiset(tail + [p]);
      if rest[j] != p {
        assert rest[j] in tail;
        var k :| 0 <= k < |tail| && tail[k] == rest[j];
        assert ([first] + tail)[0] == first && ([first] + tail)[k + 1] == tail[k];
      }
    }
    var r := [first] + rest;
    forall i, j | 0 <= i < j < |r|
      ensures r[i].order <= r[j].order
    {
      assert r[j] == rest[j - 1];
      if i > 0 {
        assert r[i] == rest[i - 1];
      }
    }
  }

  /** One admissible outcome of sorting `q` by order (an insertion sort). */
  function SortByOrder(q: seq<Payload>): (r: seq<Payload>)
    ensures IsSortedPermutation(q, r)
    decreases |q|
  {
    if q == [] then []
    else
      var last := |q| - 1;
      assert q == q[..last] + [q[last]];
      InsertByOrder(q[last], SortByOrder(q[..last]))
  }

  /** The front of any sorted arrangement carries the smallest order of the input. */
  lemma FrontIsMinimal(q: seq<Payload>, arranged: seq<Payload>, x: Payload)
    requires IsSortedPermutation(q, arranged)
    requires x in q
    ensures |arranged| > 0 && arranged[0].order <= x.order
  {
    assert x in multiset(q);
    assert x in arranged;
    var k :| 0 <= k < |arranged| && arranged[k] == x;
  }
}
