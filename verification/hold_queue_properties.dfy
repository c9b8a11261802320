/**
 Properties of the hold-back queue over whole runs: what release takes is
 determined uniquely, every reachable state keeps the invariant and loses
 or duplicates no payload, a complete run of distinct, non-negative orders
 is always released, and a stale payload at the front blocks release for
 good.
 */
module HoldQueueProperties {
  import opened Payloads
  import opened Ordering
  import opened HoldQueue

  /**
   Release is the only cut of `q` into a consecutive run from `e` followed by
   a rest that does not continue the run: any such cut is the one it makes.
   */
  lemma {:induction false} ReleaseIsUnique(q: seq<Payload>, e: int, run: seq<Payload>, rest: seq<Payload>)
    requires q == run + rest
    requires ConsecutiveFrom(run, e)
    requires rest == [] || rest[0].order as int != e + |run|
    ensures Release(q, e) == Split(run, rest)
    decreases |run|
  {
    if run == [] {
      assert q == rest;
    } else {
      assert q[0] == run[0];
      assert q[1..] == run[1..] + rest;
      assert ConsecutiveFrom(run[1..], e + 1) by {
        forall i | 0 <= i < |run[1..]|
          ensures run[1..][i].order as int == e + 1 + i
        {
          assert run[1..][i] == run[i + 1];
        }
      }
      ReleaseIsUnique(q[1..], e + 1, run[1..], rest);
      assert run == [run[0]] + run[1..];
    }
  }

  /**
   Within one call, a payload is released only at its turn: a payload whose
   order is below the expected order on entry, or at or above the expected
   order on exit, is not among those released.
   */
  lemma OutOfTurnNotReleased(s: State, p: Payload, x: Payload)
    requires x.order as int < s.expected || x.order as int >= AddMessageToQueue(s, p).expected
    ensures x !in AddMessageToQueue(s, p).history[|s.history|..]
  {
  }

  /**
   The expected order of a reachable state stays within DefaultFirstOrder and
   one past the largest 32-bit order; it reaches that bound only after the
   payload with order Int32Max has been released.
   */
  lemma ExpectedBounded(s: State)
    requires Valid(s)
    ensures DefaultFirstOrder <= s.expected <= Int32Max + 1
    ensures s.expected == Int32Max + 1 ==> s.history[|s.history| - 1].order as int == Int32Max
  {
    if |s.history| > 0 {
      var last := |s.history| - 1;
      assert s.history[last].order as int == DefaultFirstOrder + last;
    }
  }

  /** The chat payloads of `ps`, in arrival order. */
  function ChatOnly(ps: seq<Payload>): (r: seq<Payload>)
    ensures forall x :: x in r ==> IsChat(x)
    decreases |ps|
  {
    if ps == [] then []
    else (if IsChat(ps[0]) then [ps[0]] else []) + ChatOnly(ps[1..])
  }

  /** The total content of the queue: payloads waiting plus payloads released. */
  function Content(s: State): multiset<Payload> {
    multiset(s.delivery) + multiset(s.history)
  }

  /**
   Feeds the payloads `ps` to AddMessageToQueue one after the other. The
   invariant is kept, the history only grows, the expected order never
   decreases, and the queue's content grows by exactly the chat payloads fed.
   */
  function Run(s: State, ps: seq<Payload>): (r: State)
    ensures Valid(s) ==> Valid(r)
    ensures r.expected >= s.expected
    ensures |s.history| <= |r.history| && r.history[..|s.history|] == s.history
    ensures Content(r) == Content(s) + multiset(ChatOnly(ps))
    decreases |ps|
  {
    if ps == [] then s
    else
      var next := AddMessageToQueue(s, ps[0]);
      var r := Run(next, ps[1..]);
      ChatOnlyFirst(ps);
      PrefixOfPrefix(s.history, next.history, r.history);
      r
  }

  /** The chat payloads of a non-empty feed: its first payload if that is chat, then those of the rest. */
  lemma ChatOnlyFirst(ps: seq<Payload>)
    requires ps != []
    ensures multiset(ChatOnly(ps))
         == (if IsChat(ps[0]) then multiset{ps[0]} else multiset{}) + multiset(ChatOnly(ps[1..]))
  {
  }

  /** A prefix of a prefix is a prefix. */
  lemma PrefixOfPrefix(a: seq<Payload>, b: seq<Payload>, c: seq<Payload>)
    requires |a| <= |b| && b[..|a|] == a
    requires |b| <= |c| && c[..|b|] == b
    ensures c[..|a|] == a
  {
    assert c[..|a|] == c[..|b|][..|a|];
  }

  /** No two payloads of `a` share an order. */
  predicate DistinctOrders(a: seq<Payload>) {
    forall i, j :: 0 <= i < |a| && 0 <= j < |a| && a[i].order == a[j].order ==> i == j
  }

  /** Some payload of `a` carries order `k`. */
  predicate HasOrder(a: seq<Payload>, k: int) {
    exists i :: 0 <= i < |a| && a[i].order as int == k
  }

  /** Every order of the run DefaultFirstOrder, ..., DefaultFirstOrder + n - 1 occurs in `a`. */
  predicate CoversRun(a: seq<Payload>, n: nat) {
    forall k :: DefaultFirstOrder <= k < DefaultFirstOrder + n ==> HasOrder(a, k)
  }

  /** No payload of `a` is ordered before the first order. */
  predicate NoEarlyOrders(a: seq<Payload>) {
    forall i :: 0 <= i < |a| ==> a[i].order as int >= DefaultFirstOrder
  }

  /** With distinct orders, no payload occurs twice. */
  lemma {:induction false} DistinctOrdersOccurOnce(a: seq<Payload>, x: Payload)
    requires DistinctOrders(a)
    ensures multiset(a)[x] <= 1
    decreases |a|
  {
    if a != [] {
      var last := |a| - 1;
      var init := a[..last];
      assert a == init + [a[last]];
      assert DistinctOrders(init) by {
        forall i, j | 0 <= i < |init| && 0 <= j < |init| && init[i].order == init[j].order
          ensures i == j
        {
          assert init[i] == a[i] && init[j] == a[j];
        }
      }
      DistinctOrdersOccurOnce(init, x);
    }
  }

  /** With distinct orders, two payloads of `a` with the same order are the same payload. */
  lemma SameOrderSamePayload(a: seq<Payload>, x: Payload, y: Payload)
    requires DistinctOrders(a) && x in a && y in a && x.order == y.order
    ensures x == y
  {
    var i :| 0 <= i < |a| && a[i] == x;
    var j :| 0 <= j < |a| && a[j] == y;
  }

  /**
   If every order of the run DefaultFirstOrder, ..., DefaultFirstOrder + n - 1
   has been admitted, the admitted chat payloads have distinct orders and none
   is ordered before the first order, then the whole run has been released:
   the expected order is past it.
   */
  lemma AdmittedRunIsReleased(s: State, admitted: seq<Payload>, n: nat)
    requires Valid(s)
    requires Content(s) == multiset(admitted)
    requires DistinctOrders(admitted) && NoEarlyOrders(admitted)
    requires CoversRun(admitted, n)
    ensures s.expected >= DefaultFirstOrder + n
  {
    if s.expected < DefaultFirstOrder + n {
      var m := s.expected;
      assert HasOrder(admitted, m);
      var i :| 0 <= i < |admitted| && admitted[i].order as int == m;
      var x := admitted[i];
      assert x in Content(s);
      assert x in s.delivery;
      var k :| 0 <= k < |s.delivery| && s.delivery[k] == x;
      var f := s.delivery[0];
      assert f.order as int < m;
      assert f in multiset(admitted);
      var fi :| 0 <= fi < |admitted| && admitted[fi] == f;
      var h := s.history[f.order as int - DefaultFirstOrder];
      assert h in multiset(admitted);
      SameOrderSamePayload(admitted, f, h);
      assert multiset(s.delivery)[f] >= 1 && multiset(s.history)[f] >= 1;
      DistinctOrdersOccurOnce(admitted, f);
      assert false;
    }
  }

  /**
   From a fresh queue, feeding any payloads whose chat payloads have distinct
   orders, none before the first order and covering the run of n orders from
   the first, releases exactly that run, in increasing order with no gap, and
   writes each released payload's user name and text to the pipe in that order.
   */
  lemma EveryAdmittedRunIsReleased(ps: seq<Payload>, n: nat)
    requires DistinctOrders(ChatOnly(ps)) && NoEarlyOrders(ChatOnly(ps))
    requires CoversRun(ChatOnly(ps), n)
    ensures var r := Run(Init(), ps);
      && |r.history| >= n
      && (forall k :: 0 <= k < n ==> r.history[k].order as int == DefaultFirstOrder + k)
      && (forall k :: 0 <= k < n ==>
            r.output[k].username == r.history[k].username && r.output[k].message == r.history[k].message)
  {
    var r := Run(Init(), ps);
    assert Content(Init()) == multiset{};
    AdmittedRunIsReleased(r, ChatOnly(ps), n);
  }

  /**
   No duplicate suppression: once the front of the delivery queue carries an
   order below the expected one (a payload that arrived after its order was
   already released, or a negative order), every later addition, whatever the
   sort makes of equal orders, releases nothing and leaves such a payload at
   the front.
   */
  lemma StaleFrontBlocks(s: State, p: Payload, arranged: seq<Payload>)
    requires Valid(s)
    requires s.delivery != [] && s.delivery[0].order as int < s.expected
    requires IsChat(p) ==> IsSortedPermutation(s.delivery + [p], arranged)
    ensures var r := AddMessageToQueueAs(s, p, arranged);
      && r.history == s.history && r.expected == s.expected && r.output == s.output
      && r.delivery != [] && r.delivery[0].order as int < r.expected
  {
    if IsChat(p) {
      FrontIsMinimal(s.delivery + [p], arranged, s.delivery[0]);
      var r := AddMessageToQueueAs(s, p, arranged);
      assert r.history[|s.history|..] == [];
      assert r.history == s.history[..] + r.history[|s.history|..];
    }
  }

  /**
   The block is for good: after any sequence of further payloads, the history,
   expected order and output are still those of `s`, and a payload below the
   expected order is still at the front.
   */
  lemma {:induction false} StaleFrontBlocksForGood(s: State, ps: seq<Payload>)
    requires Valid(s)
    requires s.delivery != [] && s.delivery[0].order as int < s.expected
    ensures var r := Run(s, ps);
      && r.history == s.history && r.expected == s.expected && r.output == s.output
      && r.delivery != [] && r.delivery[0].order as int < r.expected
    decreases |ps|
  {
    if ps != [] {
      var p := ps[0];
      var arranged := if IsChat(p) then SortByOrder(s.delivery + [p]) else s.delivery;
      StaleFrontBlocks(s, p, arranged);
      var next := AddMessageToQueue(s, p);
      assert next == AddMessageToQueueAs(s, p, arranged);
      StaleFrontBlocksForGood(next, ps[1..]);
    }
  }

  /** A chat payload with the given order, user name and text. */
  function Chat(order: Int32, username: string, message: string): Payload {
    Payload(ChatMsg, order, username, message)
  }

  /**
   One addition of a chat payload, spelled out: when sorting the grown queue
   gives `run` followed by `rest`, where `run` continues the expected order
   and `rest` does not, `run` is released and `rest` is kept.
   */
  lemma AddReleases(s: State, p: Payload, run: seq<Payload>, rest: seq<Payload>)
    requires IsChat(p) && SortByOrder(s.delivery + [p]) == run + rest
    requires ConsecutiveFrom(run, s.expected)
    requires rest == [] || rest[0].order as int != s.expected + |run|
    ensures AddMessageToQueue(s, p)
         == s.(delivery := rest, history := s.history + run, expected := s.expected + |run|,
               output := s.output + PipeWrites(s.pipe, run))
  {
    ReleaseIsUnique(run + rest, s.expected, run, rest);
  }

  /** A chat addition whose sorted queue does not start with the expected order only sorts the queue. */
  lemma AddReleasesNothing(s: State, p: Payload, sorted: seq<Payload>)
    requires IsChat(p) && SortByOrder(s.delivery + [p]) == sorted
    requires sorted[0].order as int != s.expected
    ensures AddMessageToQueue(s, p) == s.(delivery := sorted)
  {
    AddReleases(s, p, [], sorted);
    assert s.history + [] == s.history;
    assert s.output + PipeWrites(s.pipe, []) == s.output;
  }

  // Small facts about concrete queues, used by the scenarios below.

  /** Sorting a single payload leaves it as it is. */
  lemma SortOne(x: Payload)
    ensures SortByOrder([x]) == [x]
  {
  }

  /** The insertion sort puts a later payload first only when its order is not larger. */
  lemma SortTwo(x: Payload, y: Payload)
    ensures SortByOrder([x, y]) == if y.order <= x.order then [y, x] else [x, y]
  {
    assert [x, y][..1] == [x];
    SortOne(x);
  }

  /** The pipe writes for releasing one or two payloads, spelled out. */
  lemma PipeWritesTwo(pipe: int, x: Payload, y: Payload)
    ensures PipeWrites(pipe, [x]) == [PipeMessage(pipe, x.username, x.message)]
    ensures PipeWrites(pipe, [x, y])
         == [PipeMessage(pipe, x.username, x.message), PipeMessage(pipe, y.username, y.message)]
  {
  }

  /** Prepending one element to a two-element sequence. */
  lemma ConcatOneTwo<X>(x: X, y: X, z: X)
    ensures [x] + [y, z] == [x, y, z]
  {
  }

  /** The pipe write for `p` while no pipe is set. */
  function Written(p: Payload): PipeMessage {
    PipeMessage(NoPipe, p.username, p.message)
  }

  /** Payloads of the scenarios; the name gives the sender and the order. */
  const Ann0 := Chat(0, "ann", "hi")
  const Bob2 := Chat(2, "bob", "late")
  const Cy1 := Chat(1, "cy", "early")
  const Ann0Again := Chat(0, "ann", "hi again")
  const Bob1 := Chat(1, "bob", "stuck")

  /** Adding order 0 to a fresh queue releases it at once. */
  lemma FirstOrderReleasedAtOnce()
    ensures AddMessageToQueue(Init(), Ann0) == State([], [Ann0], 1, NoPipe, [Written(Ann0)])
  {
    SortOne(Ann0);
    AddReleases(Init(), Ann0, [Ann0], []);
    PipeWritesTwo(NoPipe, Ann0, Ann0);
  }

  /** Orders 0, 2, 1 in that order, second step: order 2 waits behind the gap at 1. */
  lemma GapHoldsBack()
    ensures AddMessageToQueue(State([], [Ann0], 1, NoPipe, [Written(Ann0)]), Bob2)
         == State([Bob2], [Ann0], 1, NoPipe, [Written(Ann0)])
  {
    var s1 := State([], [Ann0], 1, NoPipe, [Written(Ann0)]);
    SortOne(Bob2);
    AddReleasesNothing(s1, Bob2, [Bob2]);
  }

  /** Orders 0, 2, 1 in that order, third step: order 1 fills the gap and releases 1 then 2. */
  lemma GapFilledReleasesRun()
    ensures AddMessageToQueue(State([Bob2], [Ann0], 1, NoPipe, [Written(Ann0)]), Cy1)
         == State([], [Ann0, Cy1, Bob2], 3, NoPipe, [Written(Ann0), Written(Cy1), Written(Bob2)])
  {
    var s2 := State([Bob2], [Ann0], 1, NoPipe, [Written(Ann0)]);
    SortTwo(Bob2, Cy1);
    assert ConsecutiveFrom([Cy1, Bob2], 1);
    AddReleases(s2, Cy1, [Cy1, Bob2], []);
    ConcatOneTwo(Ann0, Cy1, Bob2);
    PipeWritesTwo(NoPipe, Cy1, Bob2);
    ConcatOneTwo(Written(Ann0), Written(Cy1), Written(Bob2));
  }

  /** A second payload with order 0, arriving after 0 was released, is kept, not dropped. */
  lemma DuplicateIsKept()
    ensures AddMessageToQueue(State([], [Ann0], 1, NoPipe, [Written(Ann0)]), Ann0Again)
         == State([Ann0Again], [Ann0], 1, NoPipe, [Written(Ann0)])
  {
    var s1 := State([], [Ann0], 1, NoPipe, [Written(Ann0)]);
    SortOne(Ann0Again);
    AddReleasesNothing(s1, Ann0Again, [Ann0Again]);
  }

  /** The kept duplicate sorts in front of order 1 and blocks its release. */
  lemma DuplicateBlocksNext()
    ensures AddMessageToQueue(State([Ann0Again], [Ann0], 1, NoPipe, [Written(Ann0)]), Bob1)
         == State([Ann0Again, Bob1], [Ann0], 1, NoPipe, [Written(Ann0)])
  {
    var s2 := State([Ann0Again], [Ann0], 1, NoPipe, [Written(Ann0)]);
    SortTwo(Ann0Again, Bob1);
    AddReleasesNothing(s2, Bob1, [Ann0Again, Bob1]);
  }


  /**
   Orders 0, 2, 1 arriving in that order on a fresh queue: releases [0], then
   nothing, then [1, 2]; the expected order ends at 3 and the pipe receives
   the messages in order 0, 1, 2.
   */
  lemma GapFilledScenario()
    ensures var s3 := AddMessageToQueue(AddMessageToQueue(AddMessageToQueue(Init(), Ann0), Bob2), Cy1);
      && s3.history == [Ann0, Cy1, Bob2] && s3.expected == 3 && s3.delivery == []
      && s3.output == [Written(Ann0), Written(Cy1), Written(Bob2)]
  {
    FirstOrderReleasedAtOnce();
    GapHoldsBack();
    GapFilledReleasesRun();
  }

  /**
   Order 0, a second order 0, then order 1 on a fresh queue: only the first
   payload is ever released, and order 1 is held behind the duplicate.
   */
  lemma DuplicateBlocksScenario()
    ensures var s3 := AddMessageToQueue(AddMessageToQueue(AddMessageToQueue(Init(), Ann0), Ann0Again), Bob1);
      && s3.history == [Ann0] && s3.expected == 1 && s3.delivery == [Ann0Again, Bob1]
  {
    FirstOrderReleasedAtOnce();
    DuplicateIsKept();
    DuplicateBlocksNext();
  }
}
